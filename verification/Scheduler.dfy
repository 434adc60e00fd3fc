/** The scheduler: jobs kept by id, triggered by ticks, and stored after every change. */
module Scheduler {
  import opened Prelude
  import opened ScheduledRuns
  import opened ScheduleImage

  /** What the execution engine does with a submitted job. */
  datatype Engine = Missing | Refuses | Accepts

  class ScheduledJob {
    const plan: Plan
    var runCount: int
    var lastRun: Option<Time>
    var nextRun: Option<Time>
    var cancelled: bool

    function State(): JobState
      reads this
    {
      JobState(plan, runCount, lastRun, nextRun, cancelled)
    }

    constructor (s: JobState)
      ensures State() == s
    {
      plan, runCount, lastRun, nextRun, cancelled := s.plan, s.runCount, s.lastRun, s.nextRun, s.cancelled;
    }

    method Cancel()
      modifies this
      ensures State() == Cancelled(old(State()))
    {
      cancelled := true;
      nextRun := None;
    }

    /** Nothing changes when the cron search raises. */
    method CalculateNextRun(now: Time, cronSearch: CronSearch) returns (ok: bool)
      modifies this
      ensures ok <==> Calculated(old(State()), now, cronSearch).Some?
      ensures State() == if ok then Calculated(old(State()), now, cronSearch).value else old(State())
      ensures var live := !old(cancelled) && !(plan.maxRuns.Some? && runCount >= plan.maxRuns.value);
        && (!live ==> ok && nextRun == None)
        && (live && runCount == 0 && plan.delay.Some? ==> ok && nextRun == Some(now + plan.delay.value))
        && (live && plan.cron.None? && plan.interval.Some? && (runCount != 0 || plan.delay.None?) ==>
              ok && nextRun == Some(now + plan.interval.value))
        && (live && plan.cron.Some? && (runCount != 0 || plan.delay.None?) ==>
              && ok == cronSearch(plan.cron.value, now).Some?
              && nextRun == if ok then cronSearch(plan.cron.value, now) else old(nextRun))
        && (live && OneShot(plan) && plan.delay.None? ==> ok && nextRun == if runCount == 0 then Some(now) else None)
    {
      if cancelled {
        nextRun := None;
        return true;
      }
      if plan.maxRuns.Some? && runCount >= plan.maxRuns.value {
        nextRun := None;
        return true;
      }
      if runCount == 0 && plan.delay.Some? {
        nextRun := Some(now + plan.delay.value);
      } else if plan.cron.Some? {
        var next := cronSearch(plan.cron.value, now);
        if next.None? {
          return false;
        }
        nextRun := next;
      } else if plan.interval.Some? {
        nextRun := Some(now + plan.interval.value);
      } else if runCount == 0 {
        nextRun := Some(now);
      } else {
        nextRun := None;
      }
      return true;
    }

    method CountRun(ran: Time, now: Time, cronSearch: CronSearch) returns (ok: bool)
      modifies this
      ensures (State(), !ok) == Triggered(old(State()), ran, now, cronSearch)
    {
      runCount := runCount + 1;
      lastRun := Some(ran);
      ok := CalculateNextRun(now, cronSearch);
    }
  }

  /** One call of `_trigger_job`: what the engine does, and the two clock readings after it. */
  datatype Attempt = Attempt(engine: Engine, ran: Time, now: Time)

  /** The job after an attempt, and whether that raised. */
  function Tried(s: JobState, a: Attempt, cron: CronSearch): (JobState, bool) {
    match a.engine
    case Missing => (s, false)
    case Refuses => (s, true)
    case Accepts => Triggered(s, a.ran, a.now, cron)
  }

  /** Several attempts in a row, up to the first that raises. */
  function Ticked(due: seq<string>, view: View, attempts: seq<Attempt>, cron: CronSearch): (View, bool)
    requires |due| <= |attempts| && forall id | id in due :: id in view
  {
    if due == [] then (view, false)
    else
      var (after, raised) := Tried(view[due[0]], attempts[0], cron);
      var next := view[due[0] := after];
      if raised then (next, true) else Ticked(due[1..], next, attempts[1..], cron)
  }

  /** The ids of the due jobs, in the order of `order`. */
  function DueIds(order: seq<string>, view: View, now: Time): (r: seq<string>)
    requires forall id | id in order :: id in view
    ensures forall id :: id in r <==> id in order && view[id].nextRun.Some? && view[id].nextRun.value <= now && !view[id].cancelled
    ensures |r| <= |order| && (Distinct(order) ==> Distinct(r))
  {
    if order == [] then []
    else
      var rest := DueIds(order[1..], view, now);
      assert forall id | id in order :: id == order[0] || id in order[1..];
      assert Distinct(order) ==> Distinct(order[1..]) && order[0] !in order[1..];
      if Due(view[order[0]], now) then [order[0]] + rest else rest
  }

  /** The due jobs come in the order in which the jobs are listed. */
  lemma {:induction false} DueInOrder(order: seq<string>, view: View, now: Time)
    requires Distinct(order) && forall id | id in order :: id in view
    ensures Subsequence(DueIds(order, view, now), order)
  {
    if order != [] {
      assert forall i | 1 <= i < |order| :: order[0] != order[i];
      assert order[0] !in order[1..] && forall id | id in order[1..] :: id in order;
      DueInOrder(order[1..], view, now);
      var rest := DueIds(order[1..], view, now);
      assert rest != [] ==> rest[0] in rest;
      SubsequenceOneMore(rest, order, Due(view[order[0]], now));
    }
  }

  lemma {:induction false} DueIdsSnoc(order: seq<string>, id: string, view: View, now: Time)
    requires id in view && forall i | i in order :: i in view
    ensures DueIds(order + [id], view, now) == DueIds(order, view, now) + if Due(view[id], now) then [id] else []
  {
    if order == [] {
      assert [id][1..] == [];
    } else {
      assert (order + [id])[1..] == order[1..] + [id];
      DueIdsSnoc(order[1..], id, view, now);
    }
  }

  /** A tick that does not raise tries each due job exactly once, from the state it was in, and no other. */
  lemma {:induction false} TickedPointwise(due: seq<string>, view: View, attempts: seq<Attempt>, cron: CronSearch, id: string)
    requires |due| <= |attempts| && (forall i | i in due :: i in view) && Distinct(due) && id in view
    requires !Ticked(due, view, attempts, cron).1
    ensures Ticked(due, view, attempts, cron).0.Keys == view.Keys
    ensures id !in due ==> Ticked(due, view, attempts, cron).0[id] == view[id]
    ensures id in due ==>
              exists k :: (0 <= k < |due| && due[k] == id
                           && Ticked(due, view, attempts, cron).0[id] == Tried(view[id], attempts[k], cron).0)
  {
    if due != [] {
      var next := view[due[0] := Tried(view[due[0]], attempts[0], cron).0];
      TickedPointwise(due[1..], next, attempts[1..], cron, id);
      assert due[0] !in due[1..];
      if id == due[0] {
        assert due[0] == id;
      } else if id in due {
        assert id in due[1..];
        var k :| 0 <= k < |due[1..]| && due[1..][k] == id
          && Ticked(due[1..], next, attempts[1..], cron).0[id] == Tried(next[id], attempts[1..][k], cron).0;
        assert due[k + 1] == id && attempts[k + 1] == attempts[1..][k];
      }
    }
  }

  // ---------------------------------------------------------------- forgetting several jobs

  function DropAll(order: seq<string>, ids: seq<string>): seq<string>
    decreases |ids|
  {
    if ids == [] then order else DropAll(Drop(order, ids[0]), ids[1..])
  }

  lemma {:induction false} DropAllSnoc(order: seq<string>, ids: seq<string>, id: string)
    ensures DropAll(order, ids + [id]) == Drop(DropAll(order, ids), id)
    decreases |ids|
  {
    if ids == [] {
      assert [id][1..] == [];
    } else {
      assert (ids + [id])[1..] == ids[1..] + [id];
      DropAllSnoc(Drop(order, ids[0]), ids[1..], id);
    }
  }

  lemma {:induction false} DropAllHead(order: seq<string>, ids: seq<string>)
    requires order != []
    ensures DropAll(order, ids) == (if order[0] in ids then [] else [order[0]]) + DropAll(order[1..], ids)
    decreases |ids|
  {
    if ids == [] {
      assert order == [order[0]] + order[1..];
    } else if order[0] == ids[0] {
      assert Drop(order, ids[0]) == Drop(order[1..], ids[0]);
    } else {
      var shorter := Drop(order, ids[0]);
      assert shorter == [order[0]] + Drop(order[1..], ids[0]) && shorter[1..] == Drop(order[1..], ids[0]);
      DropAllHead(shorter, ids[1..]);
      assert order[0] in ids <==> order[0] in ids[1..];
    }
  }

  lemma {:induction false} DropAllOfNone(ids: seq<string>)
    ensures DropAll([], ids) == []
    decreases |ids|
  {
    if ids != [] {
      DropAllOfNone(ids[1..]);
    }
  }

  /** Dropping the ids of the jobs that are not active leaves those of the active ones, in order. */
  lemma {:induction false} DropAllIsActive(order: seq<string>, ids: seq<string>, view: View)
    requires forall id | id in order :: id in view && (id in ids <==> !Active(view[id]))
    ensures DropAll(order, ids) == ActiveIds(order, view)
  {
    if order == [] {
      DropAllOfNone(ids);
    } else {
      assert order[0] in order && forall id | id in order[1..] :: id in order;
      DropAllHead(order, ids);
      DropAllIsActive(order[1..], ids, view);
    }
  }

  class Scheduler {
    /** Ids in the order the dictionary keeps them. */
    var order: seq<string>
    var jobs: map<string, ScheduledJob>
    /** What the storage holds under the scheduler's key. */
    var stored: Option<Image>
    var totalTriggers: nat

    ghost predicate Valid()
      reads this
    {
      && Distinct(order) && (forall id :: id in order <==> id in jobs)
      && forall id | id in jobs :: jobs[id].plan.id == id
    }

    /** The jobs' states by id. */
    function Snapshot(): View
      reads this, jobs.Values
    {
      map id | id in jobs :: jobs[id].State()
    }

    /** The stored image is that of the jobs as they are. */
    ghost predicate Saved()
      reads this, jobs.Values
      requires Valid()
    {
      stored == Some(ImageOf(order, Snapshot()))
    }

    constructor (stored: Option<Image>)
      ensures Valid() && jobs == map[] && this.stored == stored && totalTriggers == 0
    {
      order, jobs, this.stored, totalTriggers := [], map[], stored, 0;
    }

    method SaveSchedule()
      requires Valid()
      modifies this`stored
      ensures Saved() && Snapshot() == old(Snapshot())
    {
      ghost var view := Snapshot();
      var serialized := [];
      for i := 0 to |order|
        invariant unchanged(this) && serialized == ImageOf(order[..i], view)
      {
        var id := order[i];
        assert id in order;
        PrefixStep(order, i);
        ImageSnoc(order[..i], id, view);
        var state := jobs[id].State();
        assert view[id] == state;
        if !state.cancelled && state.nextRun.Some? {
          var record := ToRecord(state);
          if record.Some? {
            serialized := serialized + [(id, record.value)];
          }
        }
      }
      assert order[..|order|] == order;
      stored := Some(serialized);
      assert Snapshot() == view;
    }

    /** A job put under its id, replacing the one that was there. */
    method Put(job: ScheduledJob)
      requires Valid()
      modifies this`order, this`jobs
      ensures Valid() && jobs == old(jobs)[job.plan.id := job]
      ensures order == if job.plan.id in old(jobs) then old(order) else old(order) + [job.plan.id]
      ensures Snapshot() == old(Snapshot())[job.plan.id := old(job.State())]
    {
      if job.plan.id !in jobs {
        order := order + [job.plan.id];
      }
      jobs := jobs[job.plan.id := job];
    }

    /** `schedule_job`; when the cron search raises nothing changes. */
    method ScheduleJob(q: Request, host: Host) returns (r: Option<ScheduledJob>)
      requires Valid() && q.nextRun.None? && q.runCount == 0
      modifies this
      ensures Valid() && (r.Some? <==> Constructed(q, host).Some?)
      ensures r.None? ==> order == old(order) && jobs == old(jobs) && stored == old(stored)
      ensures r.Some? ==> fresh(r.value) && r.value.State() == Constructed(q, host).value && Sane(r.value.State()) && Going(r.value.State())
      ensures r.Some? ==> Saved() && Snapshot() == old(Snapshot())[r.value.plan.id := r.value.State()]
      ensures r.Some? ==> order == if r.value.plan.id in old(jobs) then old(order) else old(order) + [r.value.plan.id]
    {
      var made := Constructed(q, host);
      if made.None? {
        return None;
      }
      ConstructedIsSane(q, host);
      var job := new ScheduledJob(made.value);
      Put(job);
      SaveSchedule();
      return Some(job);
    }

    /** `unschedule_job`: the job is cancelled and forgotten. */
    method UnscheduleJob(id: string) returns (ok: bool)
      requires Valid()
      modifies this, jobs.Values
      ensures Valid() && (ok <==> id in old(jobs))
      ensures !ok ==> order == old(order) && jobs == old(jobs) && stored == old(stored) && Snapshot() == old(Snapshot())
      ensures ok ==> old(jobs)[id].State() == Cancelled(old(jobs[id].State()))
      ensures ok ==> Saved() && Snapshot() == old(Snapshot()) - {id} && order == Drop(old(order), id)
    {
      if id !in jobs {
        return false;
      }
      ghost var view := Snapshot();
      jobs[id].Cancel();
      assert Snapshot() - {id} == view - {id};
      Forget(id);
      SaveSchedule();
      return true;
    }

    method Forget(id: string)
      requires Valid()
      modifies this`order, this`jobs
      ensures Valid() && jobs == old(jobs) - {id} && order == Drop(old(order), id)
      ensures Snapshot() == old(Snapshot()) - {id}
    {
      jobs := jobs - {id};
      order := Drop(order, id);
    }

    /** `clear_jobs`: what is left is the active jobs, in the same order. */
    method ClearJobs()
      requires Valid()
      modifies this
      ensures Valid() && Saved()
      ensures Snapshot() == ActiveView(old(Snapshot())) && order == ActiveIds(old(order), old(Snapshot()))
    {
      DropFinished();
      SaveSchedule();
    }

    /** The two loops of `clear_jobs`. */
    method DropFinished()
      requires Valid()
      modifies this`order, this`jobs
      ensures Valid() && jobs.Keys <= old(jobs).Keys
      ensures Snapshot() == ActiveView(old(Snapshot())) && order == ActiveIds(old(order), old(Snapshot()))
    {
      var toRemove := Finished();
      DropAllIsActive(order, toRemove, Snapshot());
      ForgetAll(toRemove);
      OnlyActiveLeft(toRemove);
    }

    twostate lemma OnlyActiveLeft(ids: seq<string>)
      requires forall id :: id in ids <==> id in old(jobs) && !Active(old(Snapshot())[id])
      requires forall id :: id in jobs <==> id in old(jobs) && id !in ids
      requires forall id | id in jobs :: jobs[id] == old(jobs)[id] && unchanged(jobs[id])
      ensures Snapshot() == ActiveView(old(Snapshot()))
    {
    }

    method ForgetAll(ids: seq<string>)
      requires Valid()
      modifies this`order, this`jobs
      ensures Valid() && order == DropAll(old(order), ids)
      ensures forall id :: id in jobs <==> id in old(jobs) && id !in ids
      ensures forall id | id in jobs :: jobs[id] == old(jobs)[id]
    {
      for i := 0 to |ids|
        invariant Valid() && order == DropAll(old(order), ids[..i])
        invariant forall id :: id in jobs <==> id in old(jobs) && id !in ids[..i]
        invariant forall id | id in jobs :: jobs[id] == old(jobs)[id]
      {
        PrefixStep(ids, i);
        DropAllSnoc(old(order), ids[..i], ids[i]);
        Forget(ids[i]);
      }
      assert ids[..|ids|] == ids;
    }

    /** The ids of the jobs that are cancelled or have no next run. */
    method Finished() returns (ids: seq<string>)
      requires Valid()
      ensures forall id :: id in ids <==> id in jobs && !Active(Snapshot()[id])
    {
      ids := [];
      for i := 0 to |order|
        invariant forall id :: id in ids <==> id in order[..i] && !Active(jobs[id].State())
      {
        var id := order[i];
        assert id in order;
        PrefixStep(order, i);
        if jobs[id].cancelled || jobs[id].nextRun.None? {
          ids := ids + [id];
        }
      }
      assert order[..|order|] == order;
    }

    /** `_trigger_job`; it may raise in the engine, or after counting the run, in the cron search. */
    method TriggerJob(job: ScheduledJob, attempt: Attempt, cronSearch: CronSearch) returns (ok: bool)
      requires Valid()
      modifies this`stored, this`totalTriggers, job
      ensures Valid() && (job.State(), !ok) == Tried(old(job.State()), attempt, cronSearch)
      ensures attempt.engine == Missing ==> ok && job.State() == old(job.State())
      ensures attempt.engine == Refuses ==> !ok && job.State() == old(job.State())
      ensures attempt.engine == Accepts ==> job.runCount == old(job.runCount) + 1 && job.lastRun == Some(attempt.ran)
      ensures attempt.engine == Accepts && ok ==> Saved() && totalTriggers == old(totalTriggers) + 1
      ensures attempt.engine != Accepts || !ok ==> stored == old(stored) && totalTriggers == old(totalTriggers)
    {
      match attempt.engine
      case Missing => return true;
      case Refuses => return false;
      case Accepts =>
        ok := job.CountRun(attempt.ran, attempt.now, cronSearch);
        if ok {
          totalTriggers := totalTriggers + 1;
          SaveSchedule();
        }
    }

    /** `_tick`: the due jobs are collected first, then triggered one after another until one raises. */
    method Tick(now: Time, attempts: seq<Attempt>, cronSearch: CronSearch) returns (ok: bool)
      requires Valid() && |order| <= |attempts|
      modifies this`stored, this`totalTriggers, jobs.Values
      ensures Valid()
      ensures (Snapshot(), !ok) == Ticked(DueIds(order, old(Snapshot()), now), old(Snapshot()), attempts, cronSearch)
      ensures ok && old(Saved()) ==> Saved()
    {
      var collected := Collect(now);
      ok := TriggerAll(collected, attempts, cronSearch);
    }

    /** The second half of a tick. */
    method TriggerAll(collected: seq<string>, attempts: seq<Attempt>, cronSearch: CronSearch) returns (ok: bool)
      requires Valid() && |collected| <= |attempts| && forall id | id in collected :: id in jobs
      modifies this`stored, this`totalTriggers, jobs.Values
      ensures Valid()
      ensures (Snapshot(), !ok) == Ticked(collected, old(Snapshot()), attempts, cronSearch)
      ensures ok && old(Saved()) ==> Saved()
    {
      ghost var before := Snapshot();
      for i := 0 to |collected|
        invariant Valid() && Snapshot().Keys == before.Keys
        invariant Ticked(collected[i..], Snapshot(), attempts[i..], cronSearch) == Ticked(collected, before, attempts, cronSearch)
        invariant old(Saved()) ==> Saved()
      {
        assert collected[i] in collected;
        var triggered := TriggerListed(collected[i], attempts[i], cronSearch);
        assert collected[i..][1..] == collected[i + 1..] && attempts[i..][1..] == attempts[i + 1..];
        if !triggered {
          return false;
        }
      }
      return true;
    }

    /** A trigger of a job that is still listed, as seen by the snapshot. */
    method TriggerListed(id: string, attempt: Attempt, cronSearch: CronSearch) returns (ok: bool)
      requires Valid() && id in jobs
      modifies this`stored, this`totalTriggers, jobs[id]
      ensures Valid()
      ensures var (after, raised) := Tried(old(Snapshot())[id], attempt, cronSearch);
        Snapshot() == old(Snapshot())[id := after] && ok == !raised
      ensures ok && old(Saved()) ==> Saved()
    {
      ghost var view := Snapshot();
      ok := TriggerJob(jobs[id], attempt, cronSearch);
      assert Snapshot() == view[id := jobs[id].State()];
      assert attempt.engine == Missing ==> Snapshot() == view;
    }

    /** The jobs whose time has come, in order. */
    method Collect(now: Time) returns (collected: seq<string>)
      requires Valid()
      ensures collected == DueIds(order, Snapshot(), now)
    {
      collected := [];
      ghost var view := Snapshot();
      for i := 0 to |order|
        invariant collected == DueIds(order[..i], view, now)
      {
        var id := order[i];
        assert id in order;
        PrefixStep(order, i);
        DueIdsSnoc(order[..i], id, view, now);
        assert view[id] == jobs[id].State();
        if jobs[id].nextRun.Some? && jobs[id].nextRun.value <= now && !jobs[id].cancelled {
          collected := collected + [id];
        }
      }
      assert order[..|order|] == order;
    }

    /** `_load_schedule` and `reload`: each record of the image becomes a new job under its id. */
    method LoadSchedule(hosts: string -> Host)
      requires Valid()
      modifies this`order, this`jobs
      ensures Valid()
      ensures (order, Snapshot()) == if stored.Some? then Loaded(stored.value, old(order), old(Snapshot()), hosts)
                                     else (old(order), old(Snapshot()))
    {
      if stored.None? {
        return;
      }
      var image := stored.value;
      for i := 0 to |image|
        invariant Valid() && stored == old(stored)
        invariant forall id | id in jobs :: (id in old(jobs) && jobs[id] == old(jobs)[id]) || fresh(jobs[id])
        invariant Loaded(image[i..], order, Snapshot(), hosts) == Loaded(image, old(order), old(Snapshot()), hosts)
      {
        assert image[i..][1..] == image[i + 1..];
        LoadRecord(image[i].1, hosts(image[i].0));
      }
    }

    /** One record becomes a job under its id, unless that raises. */
    method LoadRecord(r: Record, host: Host)
      requires Valid()
      modifies this`order, this`jobs
      ensures Valid()
      ensures forall id | id in jobs :: (id in old(jobs) && jobs[id] == old(jobs)[id]) || fresh(jobs[id])
      ensures (order, Snapshot()) ==
        match FromRecord(r, host)
        case None => (old(order), old(Snapshot()))
        case Some(s) =>
          (if s.plan.id in old(jobs) then old(order) else old(order) + [s.plan.id], old(Snapshot())[s.plan.id := s])
    {
      var made := FromRecord(r, host);
      if made.Some? {
        var job := new ScheduledJob(made.value);
        Put(job);
      }
    }

    /** Reloading after a save leaves every job as it was. */
    method Reload(hosts: string -> Host)
      requires Valid() && Saved() && AllStorable(Snapshot())
      modifies this`order, this`jobs
      ensures Valid() && order == old(order) && Snapshot() == old(Snapshot())
    {
      ReloadChangesNothing(order, order, Snapshot(), hosts);
      LoadSchedule(hosts);
    }
  }
}
