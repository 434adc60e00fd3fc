/**
 The whole scheduler over runs: ticks in their two halves, interleaved with jobs being scheduled,
 cancelled, unscheduled and cleared; and what each job sees of such a run.
 */
module SchedulerRuns {
  import opened Prelude
  import opened ScheduledRuns
  import opened ScheduleImage
  import opened Scheduler

  /**
   `view` are all job objects ever made, `order` the ids still listed; `pending` are the jobs the
   current tick has collected and not come to yet; `log` holds the triggers so far.
   */
  datatype World = World(order: seq<string>, view: View, pending: seq<string>, clock: Time, log: seq<(string, Time)>)

  datatype Act =
    | Collects(now: Time)
    | Tries(attempt: Attempt)
    | Schedules(job: JobState)
    | CancelsJob(id: string)
    | Unschedules(id: string)
    | Clears

  function Fresh(clock: Time): World {
    World([], map[], [], clock, [])
  }

  /**
   A job that was dropped has no next run, and a job still to be tried has one unless it was
   cancelled: so no dropped job is ever collected again.
   */
  ghost predicate Sound(w: World) {
    && Distinct(w.order) && Distinct(w.pending)
    && (forall id | id in w.order :: id in w.view)
    && (forall id | id in w.pending :: id in w.view && (w.view[id].cancelled || w.view[id].nextRun.Some?))
    && (forall id | id in w.view && w.view[id].nextRun.Some? :: id in w.order)
    && (forall id | id in w.view :: w.view[id].cancelled ==> w.view[id].nextRun.None?)
  }

  /** One thread ticks, the clock does not go back, and ids are not used twice. */
  predicate Possible(w: World, a: Act) {
    match a
    case Collects(now) => w.pending == [] && w.clock <= now
    case Tries(at) => w.pending != [] && w.clock <= at.ran <= at.now
    case Schedules(s) => s.plan.id !in w.view && Sane(s) && Going(s) && s.runCount >= 0
    case _ => true
  }

  /** The tick goes on to the next job it collected, unless this one raised. */
  function Attempted(w: World, at: Attempt, cron: CronSearch): World
    requires w.pending != [] && w.pending[0] in w.view
  {
    var id := w.pending[0];
    var (after, raised) := Tried(w.view[id], at, cron);
    w.(view := w.view[id := after], pending := if raised then [] else w.pending[1..], clock := at.now,
       log := if at.engine.Accepts? then w.log + [(id, at.ran)] else w.log)
  }

  function Next(w: World, a: Act, cron: CronSearch): World
    requires Sound(w) && Possible(w, a)
  {
    match a
    case Collects(now) => w.(pending := DueIds(w.order, w.view, now), clock := now)
    case Tries(at) => Attempted(w, at, cron)
    case Schedules(s) => w.(order := w.order + [s.plan.id], view := w.view[s.plan.id := s])
    case CancelsJob(id) => if id in w.view then w.(view := w.view[id := Cancelled(w.view[id])]) else w
    case Unschedules(id) =>
      if id in w.order then w.(order := Drop(w.order, id), view := w.view[id := Cancelled(w.view[id])]) else w
    case Clears => w.(order := ActiveIds(w.order, w.view))
  }

  lemma TrySound(w: World, at: Attempt, cron: CronSearch)
    requires Sound(w) && w.pending != []
    ensures Sound(Attempted(w, at, cron))
  {
    var id := w.pending[0];
    assert id in w.pending && id !in w.pending[1..];
    assert w.view[id].nextRun.None? ==> w.view[id].cancelled;
  }

  lemma NextSound(w: World, a: Act, cron: CronSearch)
    requires Sound(w) && Possible(w, a)
    ensures Sound(Next(w, a, cron))
  {
    if a.Tries? {
      TrySound(w, a.attempt, cron);
    }
  }

  predicate AllPossible(w: World, acts: seq<Act>, cron: CronSearch)
    requires Sound(w)
    decreases |acts|
  {
    acts == [] || (Possible(w, acts[0]) && (NextSound(w, acts[0], cron); AllPossible(Next(w, acts[0], cron), acts[1..], cron)))
  }

  function RunOf(w: World, acts: seq<Act>, cron: CronSearch): (r: World)
    requires Sound(w) && AllPossible(w, acts, cron)
    ensures Sound(r)
    decreases |acts|
  {
    if acts == [] then w
    else
      NextSound(w, acts[0], cron);
      RunOf(Next(w, acts[0], cron), acts[1..], cron)
  }

  // ---------------------------------------------------------------- what one job sees

  /** When `id` was triggered. */
  function TimesOf(log: seq<(string, Time)>, id: string): seq<Time> {
    if log == [] then []
    else (if log[0].0 == id then [log[0].1] else []) + TimesOf(log[1..], id)
  }

  lemma {:induction false} TimesSnoc(log: seq<(string, Time)>, e: (string, Time), id: string)
    ensures TimesOf(log + [e], id) == TimesOf(log, id) + if e.0 == id then [e.1] else []
  {
    if log == [] {
      assert [e][1..] == [];
    } else {
      assert (log + [e])[1..] == log[1..] + [e];
      TimesSnoc(log[1..], e, id);
    }
  }

  /** The single-job run `r` is what job `id` has seen of the scheduler's run so far. */
  ghost predicate Tracks(r: JobRun, w: World, id: string) {
    && id in w.view && r.job == w.view[id]
    && (r.collected <==> id in w.pending)
    && r.fired == TimesOf(w.log, id)
    && r.clock <= w.clock
  }

  /** What job `id` sees of one act. */
  function Seen(w: World, a: Act, cron: CronSearch, id: string): seq<Event>
    requires Sound(w) && Possible(w, a)
  {
    match a
    case Collects(now) => [Collect(now)]
    case Tries(at) =>
      if w.pending[0] == id then [if at.engine.Accepts? then Fire(at.ran, at.now) else Skip]
      else if id in w.pending && Tried(w.view[w.pending[0]], at, cron).1 then [Skip]
      else []
    case CancelsJob(i) => if i == id then [Cancel] else []
    case Unschedules(i) => if i == id && i in w.order then [Cancel] else []
    case _ => []
  }

  lemma OneEvent(r: JobRun, e: Event, cron: CronSearch)
    ensures Run(r, [e], cron) == After(r, e, cron) && (Legal(r, [e], cron) <==> Enabled(r, e))
  {
    assert [e][1..] == [];
  }

  lemma SeenOfTry(r: JobRun, w: World, at: Attempt, cron: CronSearch, id: string)
    requires Sound(w) && Possible(w, Tries(at)) && Tracks(r, w, id)
    ensures var seen := Seen(w, Tries(at), cron, id);
      Legal(r, seen, cron) && Tracks(Run(r, seen, cron), Attempted(w, at, cron), id)
  {
    var first := w.pending[0];
    assert first in w.pending && first !in w.pending[1..];
    assert forall i | i in w.pending :: i == first || i in w.pending[1..];
    TimesSnoc(w.log, (first, at.ran), id);
    OneEvent(r, Skip, cron);
    OneEvent(r, Fire(at.ran, at.now), cron);
  }

  lemma SeenOfAct(r: JobRun, w: World, a: Act, cron: CronSearch, id: string)
    requires Sound(w) && Possible(w, a) && Tracks(r, w, id)
    ensures var seen := Seen(w, a, cron, id);
      Legal(r, seen, cron) && Tracks(Run(r, seen, cron), Next(w, a, cron), id)
  {
    match a
    case Collects(now) => OneEvent(r, Collect(now), cron);
    case Tries(at) => SeenOfTry(r, w, at, cron, id);
    case CancelsJob(_) => OneEvent(r, Cancel, cron);
    case Unschedules(_) => OneEvent(r, Cancel, cron);
    case _ =>
  }

  lemma {:induction false} RunsJoin(r: JobRun, a: seq<Event>, b: seq<Event>, cron: CronSearch)
    requires Legal(r, a, cron) && Legal(Run(r, a, cron), b, cron)
    ensures Legal(r, a + b, cron) && Run(r, a + b, cron) == Run(Run(r, a, cron), b, cron)
    decreases |a|
  {
    if a == [] {
      assert a + b == b;
    } else {
      assert (a + b)[1..] == a[1..] + b;
      RunsJoin(After(r, a[0], cron), a[1..], b, cron);
    }
  }

  /** The story of job `id` so far: a sane job, and a legal run of it, that the scheduler tracks. */
  ghost predicate Story(w: World, id: string, start: JobRun, events: seq<Event>, cron: CronSearch) {
    Starts(start) && Going(start.job) && Legal(start, events, cron) && Tracks(Run(start, events, cron), w, id)
  }

  ghost predicate AllHaveStories(w: World, cron: CronSearch) {
    forall id | id in w.view :: exists start, events :: Story(w, id, start, events, cron)
  }

  lemma StoryGoesOn(w: World, a: Act, cron: CronSearch, id: string)
    requires Sound(w) && Possible(w, a) && id in w.view
    requires exists start, events :: Story(w, id, start, events, cron)
    ensures exists start, events :: Story(Next(w, a, cron), id, start, events, cron)
  {
    var start, events :| Story(w, id, start, events, cron);
    var r := Run(start, events, cron);
    SeenOfAct(r, w, a, cron, id);
    var seen := Seen(w, a, cron, id);
    RunsJoin(start, events, seen, cron);
    assert Story(Next(w, a, cron), id, start, events + seen, cron);
  }

  /** Only jobs that exist are ever triggered. */
  ghost predicate LogKnown(w: World) {
    forall e | e in w.log :: e.0 in w.view
  }

  lemma {:induction false} NoTimesOfUnknown(log: seq<(string, Time)>, id: string)
    requires forall e | e in log :: e.0 != id
    ensures TimesOf(log, id) == []
  {
    if log != [] {
      NoTimesOfUnknown(log[1..], id);
    }
  }

  lemma StoryBegins(w: World, s: JobState, cron: CronSearch)
    requires Sound(w) && LogKnown(w) && Possible(w, Schedules(s))
    ensures exists start, events :: Story(Next(w, Schedules(s), cron), s.plan.id, start, events, cron)
  {
    var start := JobRun(s, false, w.clock, []);
    NoTimesOfUnknown(w.log, s.plan.id);
    assert Story(Next(w, Schedules(s), cron), s.plan.id, start, [], cron);
  }

  lemma NextHasStories(w: World, a: Act, cron: CronSearch)
    requires Sound(w) && LogKnown(w) && AllHaveStories(w, cron) && Possible(w, a)
    ensures AllHaveStories(Next(w, a, cron), cron) && LogKnown(Next(w, a, cron))
  {
    forall id | id in Next(w, a, cron).view
      ensures exists start, events :: Story(Next(w, a, cron), id, start, events, cron)
    {
      if id in w.view {
        StoryGoesOn(w, a, cron, id);
      } else {
        assert a.Schedules? && id == a.job.plan.id;
        StoryBegins(w, a.job, cron);
      }
    }
  }

  lemma {:induction false} RunHasStories(w: World, acts: seq<Act>, cron: CronSearch)
    requires Sound(w) && LogKnown(w) && AllHaveStories(w, cron) && AllPossible(w, acts, cron)
    ensures AllHaveStories(RunOf(w, acts, cron), cron)
    decreases |acts|
  {
    if acts != [] {
      NextSound(w, acts[0], cron);
      NextHasStories(w, acts[0], cron);
      RunHasStories(Next(w, acts[0], cron), acts[1..], cron);
    }
  }

  // ---------------------------------------------------------------- the guarantees

  /** What a job's plan allows and demands, the job having been triggered at the times `fired`. */
  predicate KeepsPlan(s: JobState, fired: seq<Time>) {
    && (s.plan.maxRuns.Some? && fired != [] ==> s.runCount <= s.plan.maxRuns.value)
    && (OneShot(s.plan) ==> |fired| <= 1)
    && (OnInterval(s.plan) && s.plan.interval.value > 0.0 && fired != [] ==>
          |fired| <= 1 + ((fired[|fired| - 1] - fired[0]) / s.plan.interval.value).Floor)
    && (s.nextRun.Some? ==> !s.cancelled && !Exhausted(s))
    && s.runCount >= |fired|
    && Going(s)
    && (fired != [] ==> s.lastRun == Some(fired[|fired| - 1]))
    && (OnInterval(s.plan) && fired != [] && s.nextRun.Some? ==> fired[|fired| - 1] + s.plan.interval.value <= s.nextRun.value)
  }

  /**
   Over every run of the scheduler, raising ticks and an engine that refuses or is missing included:
   a job that was triggered has not run more often than its maximum, one without interval and cron
   was triggered at most once, and one on an interval at most 1 + floor(elapsed / interval) times
   from its first trigger to its last; a set next run time means live and below the maximum, and a
   recurring job that is neither cancelled nor at its maximum has one; its last run is its last trigger.
   */
  lemma TriggersOfEveryJob(clock: Time, acts: seq<Act>, cron: CronSearch, id: string)
    requires AllPossible(Fresh(clock), acts, cron) && id in RunOf(Fresh(clock), acts, cron).view
    ensures var w := RunOf(Fresh(clock), acts, cron); KeepsPlan(w.view[id], TimesOf(w.log, id))
  {
    RunHasStories(Fresh(clock), acts, cron);
    var w := RunOf(Fresh(clock), acts, cron);
    var start, events :| Story(w, id, start, events, cron);
    StoryBounds(w, id, start, events, cron);
  }

  lemma StoryBounds(w: World, id: string, start: JobRun, events: seq<Event>, cron: CronSearch)
    requires Story(w, id, start, events, cron)
    ensures KeepsPlan(w.view[id], TimesOf(w.log, id))
  {
    var s := w.view[id];
    RunKeepsInv(start, events, cron, start.job.runCount);
    NextRunMeansLive(start, events, cron);
    RecurringGoesOn(start, events, cron);
    RunKeepsLastRun(start, events, cron);
    if OnInterval(s.plan) {
      RunKeepsPace(start, events, cron);
    }
    if s.plan.maxRuns.Some? {
      TriggersBounded(start, events, cron);
    }
    if OneShot(s.plan) {
      OneShotFiresOnce(start, events, cron);
    }
    if OnInterval(s.plan) && s.plan.interval.value > 0.0 {
      IntervalBound(start, events, cron);
    }
  }

  // ---------------------------------------------------------------- ticks are such runs

  /** The attempts a tick gets to. */
  function TickActs(due: seq<string>, view: View, attempts: seq<Attempt>, cron: CronSearch): seq<Act>
    requires |due| <= |attempts| && forall id | id in due :: id in view
  {
    if due == [] then []
    else
      var (after, raised) := Tried(view[due[0]], attempts[0], cron);
      [Tries(attempts[0])] + if raised then [] else TickActs(due[1..], view[due[0] := after], attempts[1..], cron)
  }

  /** The readings of a tick, from the time it collected on. */
  predicate InTime(clock: Time, attempts: seq<Attempt>)
    decreases |attempts|
  {
    attempts == [] || (clock <= attempts[0].ran <= attempts[0].now && InTime(attempts[0].now, attempts[1..]))
  }

  lemma {:induction false} TickIsRun(w: World, attempts: seq<Attempt>, cron: CronSearch)
    requires Sound(w) && |w.pending| <= |attempts| && InTime(w.clock, attempts)
    ensures var acts := TickActs(w.pending, w.view, attempts, cron);
      && AllPossible(w, acts, cron)
      && RunOf(w, acts, cron).view == Ticked(w.pending, w.view, attempts, cron).0
      && RunOf(w, acts, cron).pending == [] && RunOf(w, acts, cron).order == w.order
    decreases |w.pending|
  {
    if w.pending != [] {
      var act := Tries(attempts[0]);
      var next := Next(w, act, cron);
      var (after, raised) := Tried(w.view[w.pending[0]], attempts[0], cron);
      NextSound(w, act, cron);
      var acts := TickActs(w.pending, w.view, attempts, cron);
      assert acts[0] == act;
      if raised {
        assert acts[1..] == [];
      } else {
        assert acts[1..] == TickActs(w.pending[1..], next.view, attempts[1..], cron);
        TickIsRun(next, attempts[1..], cron);
      }
    }
  }

  /** A tick of the scheduler, raising or not, is a run of these acts: a collection and its attempts. */
  lemma TickIsCollectAndTry(w: World, now: Time, attempts: seq<Attempt>, cron: CronSearch)
    requires Sound(w) && w.pending == [] && w.clock <= now && |w.order| <= |attempts| && InTime(now, attempts)
    ensures var due := DueIds(w.order, w.view, now);
      var acts := [Collects(now)] + TickActs(due, w.view, attempts, cron);
      && AllPossible(w, acts, cron)
      && RunOf(w, acts, cron).view == Ticked(due, w.view, attempts, cron).0
      && RunOf(w, acts, cron).pending == [] && RunOf(w, acts, cron).order == w.order
  {
    var due := DueIds(w.order, w.view, now);
    var rest := TickActs(due, w.view, attempts, cron);
    var collected := Next(w, Collects(now), cron);
    NextSound(w, Collects(now), cron);
    TickIsRun(collected, attempts, cron);
    assert ([Collects(now)] + rest)[1..] == rest;
  }

  // ---------------------------------------------------------------- every due job is triggered

  /** The triggers of a tick all of whose attempts the engine accepts. */
  function Triggers(due: seq<string>, attempts: seq<Attempt>): seq<(string, Time)>
    requires |due| <= |attempts|
  {
    seq(|due|, k requires 0 <= k < |due| => (due[k], attempts[k].ran))
  }

  lemma TriggersTail(due: seq<string>, attempts: seq<Attempt>)
    requires due != [] && |due| <= |attempts|
    ensures Triggers(due, attempts) == [(due[0], attempts[0].ran)] + Triggers(due[1..], attempts[1..])
  {
  }

  lemma {:induction false} TickLogs(w: World, attempts: seq<Attempt>, cron: CronSearch)
    requires Sound(w) && |w.pending| <= |attempts| && InTime(w.clock, attempts)
    requires forall k | 0 <= k < |w.pending| :: attempts[k].engine == Accepts
    requires !Ticked(w.pending, w.view, attempts, cron).1
    ensures var acts := TickActs(w.pending, w.view, attempts, cron);
      && AllPossible(w, acts, cron)
      && RunOf(w, acts, cron).log == w.log + Triggers(w.pending, attempts)
    decreases |w.pending|
  {
    TickIsRun(w, attempts, cron);
    if w.pending != [] {
      var act := Tries(attempts[0]);
      var next := Next(w, act, cron);
      NextSound(w, act, cron);
      var acts := TickActs(w.pending, w.view, attempts, cron);
      assert acts[0] == act && acts[1..] == TickActs(w.pending[1..], next.view, attempts[1..], cron);
      TickLogs(next, attempts[1..], cron);
      TriggersTail(w.pending, attempts);
    }
  }

  /**
   A tick with an engine that accepts and a cron search that does not raise triggers exactly the listed jobs
   whose next run time has come and that are not cancelled, each once, in the order of the list.
   */
  lemma TickTriggersDue(w: World, now: Time, attempts: seq<Attempt>, cron: CronSearch) returns (due: seq<string>)
    requires Sound(w) && w.pending == [] && w.clock <= now && |w.order| <= |attempts| && InTime(now, attempts)
    requires forall k | 0 <= k < |w.order| :: attempts[k].engine == Accepts
    requires !Ticked(DueIds(w.order, w.view, now), w.view, attempts, cron).1
    ensures Distinct(due) && Subsequence(due, w.order) && |due| <= |attempts|
    ensures forall id :: id in due <==> id in w.order && w.view[id].nextRun.Some? && w.view[id].nextRun.value <= now && !w.view[id].cancelled
    ensures var acts := [Collects(now)] + TickActs(due, w.view, attempts, cron);
      AllPossible(w, acts, cron) && RunOf(w, acts, cron).log == w.log + Triggers(due, attempts)
  {
    due := DueIds(w.order, w.view, now);
    DueInOrder(w.order, w.view, now);
    var rest := TickActs(due, w.view, attempts, cron);
    NextSound(w, Collects(now), cron);
    TickLogs(Next(w, Collects(now), cron), attempts, cron);
    assert ([Collects(now)] + rest)[1..] == rest;
  }
}
