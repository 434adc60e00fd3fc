/** Reachable states in which a step that is not harmless leaves a job in two places, or in none. */
module JobLateReport {
  import opened Prelude
  import opened Tallies
  import opened JobProtocol
  import opened JobBudget
  import opened JobPlaces
  import opened JobSteps
  import opened JobTheorems

  function Spec(w: WorkerId): JobSpec {
    JobSpec(20, 0.0, 1, None, Callable, Some(w))
  }

  function TheNode(status: WorkerState, jobs: seq<JobId>, held: seq<JobId>): Node {
    Node(status, 0.0, {}, jobs, held)
  }

  /** One worker, no job. */
  function Idle(w: WorkerId, status: WorkerState): (s: State)
    ensures WF(s)
  {
    State(map[], {}, [], 0, [w], map[w := TheNode(status, [], [])], [], [], multiset{}, multiset{}, multiset{})
  }

  /** All of `hands` are on job `j`. */
  ghost predicate AllOf(hands: seq<Hand>, j: JobId) {
    forall h | h in hands :: h.job == j
  }

  /** One job `j`, held by one worker `w` of the given status. */
  function Scene(j: JobId, w: WorkerId, job: JobStatus, status: WorkerState, queue: seq<JobId>,
                 picked: seq<Hand>, running: seq<Hand>, starts: multiset<JobId>): (s: State)
    requires queue == [] || queue == [j]
    requires AllOf(picked, j) && AllOf(running, j)
    ensures WF(s)
  {
    State(map[j := JobRec(Spec(w), 0, job, false, Some(w))], {j}, [], 0, [w], map[w := TheNode(status, queue, [j])],
          picked, running, starts, multiset{j}, multiset{})
  }

  /** The worker `w` died with job `j`, which was recovered; who waits for, holds and runs it now is given. */
  function Recovered(j: JobId, w: WorkerId, job: JobStatus, central: seq<Item>, picked: seq<Hand>,
                     running: seq<Hand>, starts: multiset<JobId>): (s: State)
    requires forall i | i in central :: i.job == j
    requires AllOf(picked, j) && AllOf(running, j)
    ensures WF(s)
  {
    State(map[j := JobRec(Spec(w), 0, job, false, None)], {j}, central, 1, [w],
          map[w := TheNode(Offline, [], [])], picked, running, starts, multiset{j}, multiset{j})
  }

  /** Just recovered: the job is back in the central queue, and the stale runner still has it in hand. */
  function Dead(j: JobId, w: WorkerId, picked: seq<Hand>, running: seq<Hand>, starts: multiset<JobId>): (s: State)
    requires AllOf(picked, j) && AllOf(running, j)
    ensures WF(s)
  {
    Recovered(j, w, Queued, [Item(20, 0.0, 1, j)], picked, running, starts)
  }

  lemma WorkerJoins(w: WorkerId)
    ensures Register(InitialState, w, {}, 0.0) == Idle(w, Registered)
  {
    assert AddKey([], w) == [w];
  }

  lemma WorkerBeats(w: WorkerId)
    ensures Heartbeat(Idle(w, Registered), w, 0.0) == Idle(w, Active)
  {
    assert Beaten(TheNode(Registered, [], []), 0.0) == TheNode(Active, [], []);
  }

  lemma JobArrives(j: JobId, w: WorkerId)
    ensures Submit(Idle(w, Active), j, NewJob(Spec(w), false)) == Scene(j, w, Queued, Active, [j], [], [], multiset{})
  {
    var s := Admit(Idle(w, Active), j, NewJob(Spec(w), false));
    assert Route(s.nodes, s.order, s.jobs[j]) == Some(w);
    assert Joined(s.nodes[w], j) == TheNode(Active, [j], [j]);
  }

  lemma JobFetched(j: JobId, w: WorkerId)
    ensures Fetch(Scene(j, w, Queued, Active, [j], [], [], multiset{}), w)
         == Scene(j, w, Queued, Active, [], [Hand(Remote(w), j)], [], multiset{})
  {
  }

  lemma JobStarts(j: JobId, w: WorkerId)
    ensures var s := Scene(j, w, Queued, Active, [], [Hand(Remote(w), j)], [], multiset{});
      && Live(s, s.picked[0])
      && BeginRemote(s, 0) == Scene(j, w, Running, Active, [], [], [Hand(Remote(w), j)], multiset{j})
  {
    var s := Scene(j, w, Queued, Active, [], [Hand(Remote(w), j)], [], multiset{});
    var s1 := Scene(j, w, Queued, Active, [], [], [], multiset{});
    assert PutDown(s, 0) == s1;
    assert Report(s1, w, j, Running) == Scene(j, w, Running, Active, [], [], [], multiset{});
  }

  lemma SweepOne(s: State, w: WorkerId, now: real, timeout: real)
    requires WF(s)
    ensures SweepFrom(s, [w], now, timeout) == SweepNode(s, w, now, timeout)
  {
    assert [w][1..] == [];
  }

  lemma NodeSuspended(j: JobId, w: WorkerId, job: JobStatus, picked: seq<Hand>, running: seq<Hand>, starts: multiset<JobId>)
    requires AllOf(picked, j) && AllOf(running, j)
    ensures SweepFrom(Scene(j, w, job, Active, [], picked, running, starts), [w], 6.0, 6.0)
         == Scene(j, w, job, Suspended, [], picked, running, starts)
  {
    SweepOne(Scene(j, w, job, Active, [], picked, running, starts), w, 6.0, 6.0);
  }

  /** The second sweep empties the node before its job is put back. */
  lemma NodeEmptied(j: JobId, w: WorkerId, s: State)
    requires WF(s) && j in s.jobs && w in s.nodes && s.nodes[w] == TheNode(Suspended, [], [j])
    ensures SweepNode(s, w, 12.0, 6.0) == Requeue(SetNode(s, w, TheNode(Offline, [], [])), [j])
  {
    assert Evacuated(s.nodes[w]) == TheNode(Offline, [], []);
  }

  lemma NodeDies(j: JobId, w: WorkerId, job: JobStatus, picked: seq<Hand>, running: seq<Hand>, starts: multiset<JobId>)
    requires AllOf(picked, j) && AllOf(running, j)
    ensures SweepFrom(Scene(j, w, job, Suspended, [], picked, running, starts), [w], 12.0, 6.0)
         == Dead(j, w, picked, running, starts)
  {
    var s := Scene(j, w, job, Suspended, [], picked, running, starts);
    SweepOne(s, w, 12.0, 6.0);
    NodeEmptied(j, w, s);
    JobRequeued(j, w, job, SetNode(s, w, TheNode(Offline, [], [])));
  }

  /** The only job, put back into an empty central queue. */
  lemma JobRequeued(j: JobId, w: WorkerId, job: JobStatus, s: State)
    requires WF(s) && s.jobs == map[j := JobRec(Spec(w), 0, job, false, Some(w))] && s.central == [] && s.stamp == 0
    ensures Requeue(s, [j]) ==
      s.(jobs := map[j := JobRec(Spec(w), 0, Queued, false, None)], central := [Item(20, 0.0, 1, j)], stamp := 1,
         recoveries := s.recoveries + multiset{j})
  {
    var rec := JobRec(Spec(w), 0, Queued, false, None);
    var s1 := SetJob(s, j, rec);
    assert s1.jobs == map[j := rec];
    assert PutCentral(s1, j).central == [Item(20, 0.0, 1, j)];
    assert [j][1..] == [];
  }

  lemma IdleReached(w: WorkerId)
    ensures Reached(Idle(w, Active))
  {
    assert HarmlessRun(InitialState, []) && Run(InitialState, []) == InitialState;
    ReachedStep(InitialState, DoRegister(w, {}, 0.0));
    WorkerJoins(w);
    WorkerBeats(w);
    ReachedStep(Idle(w, Registered), DoHeartbeat(w, 0.0));
  }

  lemma QueuedReached(j: JobId, w: WorkerId)
    ensures Reached(Scene(j, w, Queued, Active, [j], [], [], multiset{}))
  {
    IdleReached(w);
    ReachedStep(Idle(w, Active), DoSubmit(j, Spec(w), false));
    JobArrives(j, w);
  }

  lemma FetchedReached(j: JobId, w: WorkerId)
    ensures Reached(Scene(j, w, Queued, Active, [], [Hand(Remote(w), j)], [], multiset{}))
  {
    QueuedReached(j, w);
    ReachedStep(Scene(j, w, Queued, Active, [j], [], [], multiset{}), DoFetch(w));
    JobFetched(j, w);
  }

  lemma StartedReached(j: JobId, w: WorkerId)
    ensures Reached(Scene(j, w, Running, Active, [], [], [Hand(Remote(w), j)], multiset{j}))
  {
    var h := Hand(Remote(w), j);
    FetchedReached(j, w);
    JobStarts(j, w);
    ReachedStep(Scene(j, w, Queued, Active, [], [h], [], multiset{}), DoBeginRemote(0));
  }

  /** Two sweeps later the node is dead and its job recovered, whatever its runner was doing with it. */
  lemma DeadReached(j: JobId, w: WorkerId, job: JobStatus, picked: seq<Hand>, running: seq<Hand>, starts: multiset<JobId>)
    requires AllOf(picked, j) && AllOf(running, j)
    requires Reached(Scene(j, w, job, Active, [], picked, running, starts))
    ensures Reached(Dead(j, w, picked, running, starts))
  {
    ReachedStep(Scene(j, w, job, Active, [], picked, running, starts), DoSweep(6.0, 6.0));
    NodeSuspended(j, w, job, picked, running, starts);
    ReachedStep(Scene(j, w, job, Suspended, [], picked, running, starts), DoSweep(12.0, 6.0));
    NodeDies(j, w, job, picked, running, starts);
  }

  // ---------------------------------------------------------------- a late failure report

  /** The stale runner still runs the recovered job. */
  function StillRunning(j: JobId, w: WorkerId): (s: State)
    ensures WF(s)
  {
    Dead(j, w, [], [Hand(Remote(w), j)], multiset{j})
  }

  lemma StillRunningReached(j: JobId, w: WorkerId)
    ensures Reached(StillRunning(j, w))
  {
    StartedReached(j, w);
    DeadReached(j, w, Running, [], [Hand(Remote(w), j)], multiset{j});
  }

  lemma StillRunningPlaces(j: JobId, w: WorkerId)
    ensures Places(StillRunning(j, w), j) == 1 && Places(Stop(StillRunning(j, w), 0), j) == 1
  {
    var s := StillRunning(j, w);
    assert s.central[1..] == [] && s.order[1..] == [] && s.running[1..] == [];
    assert Sum(s.central, IsItemOf(j)) == IsItemOf(j)(s.central[0]) == 1;
    assert Sum(s.order, HeldOn(s.nodes, j)) == HeldOn(s.nodes, j)(w) == 0;
    assert Sum(s.running, IsHand(Hand(Local, j))) == IsHand(Hand(Local, j))(s.running[0]) == 0;
    StopHands(s, 0, Hand(Local, j));
  }

  /**
   The node died and its job went back to the central queue; the worker's late failure report then
   puts the job on the dead node as well.
   */
  lemma LateReportDoubles(j: JobId, w: WorkerId)
    ensures Reached(StillRunning(j, w)) && Places(StillRunning(j, w), j) == 1
    ensures Places(EndRemote(StillRunning(j, w), 0, true), j) == 2
    ensures EndRemote(StillRunning(j, w), 0, true).nodes[w] == TheNode(Offline, [j], [j])
  {
    StillRunningReached(j, w);
    StillRunningPlaces(j, w);
    RetryOnCounts(Stop(StillRunning(j, w), 0), w, j);
  }

  // ---------------------------------------------------------------- a late pickup

  /** The stale runner has the recovered job in hand, and a local thread has taken it too. */
  function Taken(j: JobId, w: WorkerId): (s: State)
    ensures WF(s)
  {
    Recovered(j, w, Queued, [], [Hand(Remote(w), j), Hand(Local, j)], [], multiset{})
  }

  function LocallyRun(j: JobId, w: WorkerId): (s: State)
    ensures WF(s)
  {
    Recovered(j, w, Running, [], [Hand(Remote(w), j)], [Hand(Local, j)], multiset{j})
  }

  function Done(j: JobId, w: WorkerId): (s: State)
    ensures WF(s)
  {
    Recovered(j, w, Completed, [], [Hand(Remote(w), j)], [], multiset{j})
  }

  function Revived(j: JobId, w: WorkerId): (s: State)
    ensures WF(s)
  {
    Recovered(j, w, Running, [], [], [Hand(Remote(w), j)], multiset{j, j})
  }

  lemma JobTaken(j: JobId, w: WorkerId)
    ensures TakeLocal(Dead(j, w, [Hand(Remote(w), j)], [], multiset{})) == Taken(j, w)
  {
  }

  lemma JobRunLocally(j: JobId, w: WorkerId)
    ensures BeginLocal(Taken(j, w), 1) == LocallyRun(j, w)
  {
    assert Without([Hand(Remote(w), j), Hand(Local, j)], 1) == [Hand(Remote(w), j)];
  }

  lemma JobDone(j: JobId, w: WorkerId)
    ensures EndLocal(LocallyRun(j, w), 0, false) == Done(j, w)
  {
    assert Without([Hand(Local, j)], 0) == [];
  }

  lemma JobRevived(j: JobId, w: WorkerId)
    ensures BeginRemote(Done(j, w), 0) == Revived(j, w)
  {
    assert Without([Hand(Remote(w), j)], 0) == [];
    BeginRemoteRuns(Done(j, w), 0);
  }

  lemma TakenReached(j: JobId, w: WorkerId)
    ensures Reached(Taken(j, w))
  {
    var h := Hand(Remote(w), j);
    FetchedReached(j, w);
    DeadReached(j, w, Queued, [h], [], multiset{});
    ReachedStep(Dead(j, w, [h], [], multiset{}), DoTakeLocal);
    JobTaken(j, w);
  }

  lemma DoneReached(j: JobId, w: WorkerId)
    ensures Reached(Done(j, w))
  {
    TakenReached(j, w);
    ReachedStep(Taken(j, w), DoBeginLocal(1));
    JobRunLocally(j, w);
    ReachedStep(LocallyRun(j, w), DoEndLocal(0, false));
    JobDone(j, w);
  }

  lemma RevivedPlaces(j: JobId, w: WorkerId)
    ensures Places(Revived(j, w), j) == 0
  {
    var s := Revived(j, w);
    SumZero(s.running, IsHand(Hand(Local, j)));
    SumZero(s.order, HeldOn(s.nodes, j));
  }

  lemma RevivedRecords(j: JobId, w: WorkerId)
    ensures Done(j, w).jobs[j].status == Completed && Done(j, w).starts[j] == 1
    ensures Revived(j, w).jobs[j].status == Running && Revived(j, w).starts[j] == 2
  {
  }

  /**
   The node died with a job its runner had fetched, and a local thread has completed it; the runner
   then marks it RUNNING again, while it is in no place, and starts its target a second time.
   */
  lemma LatePickupRevives(j: JobId, w: WorkerId)
    ensures Reached(Done(j, w)) && Done(j, w).jobs[j].status == Completed && Done(j, w).starts[j] == 1
    ensures BeginRemote(Done(j, w), 0) == Revived(j, w) && Places(Revived(j, w), j) == 0
    ensures Revived(j, w).jobs[j].status == Running && Revived(j, w).starts[j] == 2
  {
    DoneReached(j, w);
    JobRevived(j, w);
    RevivedPlaces(j, w);
    RevivedRecords(j, w);
  }

  // ---------------------------------------------------------------- a second assignment

  /** The job waits on its worker. */
  function Waiting(j: JobId, w: WorkerId): (s: State)
    ensures WF(s)
  {
    Scene(j, w, Queued, Active, [j], [], [], multiset{})
  }

  lemma WaitingReached(j: JobId, w: WorkerId)
    ensures Reached(Waiting(j, w)) && Inv(Waiting(j, w)) && Places(Waiting(j, w), j) >= 1
  {
    QueuedReached(j, w);
    ReachedInv(Waiting(j, w));
    HeldOnce(Waiting(j, w), w, j);
  }

  lemma WaitingRecord(j: JobId, w: WorkerId)
    ensures var s := Waiting(j, w);
      && w in s.nodes && j in s.nodes[w].held && j in s.jobs && s.jobs[j].status == Queued && Places(s, j) == 1
  {
    WaitingReached(j, w);
    HeldIsTracked(Waiting(j, w), w, j);
  }

  lemma AssignedTwice(j: JobId, w: WorkerId)
    ensures CanAssign(Waiting(j, w), j, w)
    ensures Assign(Waiting(j, w), j, w).nodes[w] == TheNode(Active, [j, j], [j])
  {
  }

  /** A job waiting on its worker, assigned to that worker once more, waits there twice. */
  lemma AssignmentDoubles(j: JobId, w: WorkerId)
    ensures Reached(Waiting(j, w)) && CanAssign(Waiting(j, w), j, w)
    ensures Assign(Waiting(j, w), j, w).nodes[w] == TheNode(Active, [j, j], [j])
    ensures !Inv(Assign(Waiting(j, w), j, w))
  {
    WaitingReached(j, w);
    AssignedTwice(j, w);
    AssignKeepsInvIff(Waiting(j, w), j, w);
  }

  // ---------------------------------------------------------------- a worker that leaves

  /** The manager forgets a worker whose queue still holds a job: the job waits nowhere. */
  lemma UnregisteringLoses(j: JobId, w: WorkerId)
    ensures var r := Unregister(Waiting(j, w), w);
      && Reached(Waiting(j, w)) && j in r.jobs && r.jobs[j].status == Queued && Places(r, j) == 0 && !Inv(r)
  {
    WaitingReached(j, w);
    WaitingRecord(j, w);
    UnregisterPlaces(Waiting(j, w), w, j);
    UnregisterKeepsInvIff(Waiting(j, w), w);
  }

  // ---------------------------------------------------------------- a report by the holder, made directly

  /** The worker has reported the outcome of job `j` before its runner got to it. */
  function Reported(j: JobId, w: WorkerId, job: JobStatus, queue: seq<JobId>, picked: seq<Hand>, running: seq<Hand>,
                    starts: multiset<JobId>): (s: State)
    requires queue == [] || queue == [j]
    requires AllOf(picked, j) && AllOf(running, j)
    ensures WF(s)
  {
    State(map[j := JobRec(Spec(w), 0, job, false, Some(w))], {j}, [], 0, [w], map[w := TheNode(Active, queue, [])],
          picked, running, starts, multiset{j}, multiset{})
  }

  lemma JobReported(j: JobId, w: WorkerId)
    ensures Report(Waiting(j, w), w, j, Completed)
         == Reported(j, w, Completed, [j], [], [], multiset{})
  {
    assert Drop([j], j) == [];
  }

  lemma ReportedFetched(j: JobId, w: WorkerId)
    ensures Fetch(Reported(j, w, Completed, [j], [], [], multiset{}), w)
         == Reported(j, w, Completed, [], [Hand(Remote(w), j)], [], multiset{})
  {
  }

  lemma ReportedStarts(j: JobId, w: WorkerId)
    ensures BeginRemote(Reported(j, w, Completed, [], [Hand(Remote(w), j)], [], multiset{}), 0)
         == Reported(j, w, Running, [], [], [Hand(Remote(w), j)], multiset{j})
  {
    assert Without([Hand(Remote(w), j)], 0) == [];
    BeginRemoteRuns(Reported(j, w, Completed, [], [Hand(Remote(w), j)], [], multiset{}), 0);
  }

  /**
   A worker reports a job COMPLETED that still waits in its queue: the copy stays there, and is then
   fetched, marked RUNNING and started.
   */
  lemma ReportedJobRuns(j: JobId, w: WorkerId)
    ensures var reported := Report(Waiting(j, w), w, j, Completed);
      && Reached(Waiting(j, w)) && j in Waiting(j, w).nodes[w].held
      && !Inv(reported) && reported == Reported(j, w, Completed, [j], [], [], multiset{})
      && BeginRemote(Fetch(reported, w), 0) == Reported(j, w, Running, [], [], [Hand(Remote(w), j)], multiset{j})
  {
    WaitingReached(j, w);
    HeldReportKeepsInvIff(Waiting(j, w), w, j, Completed);
    JobReported(j, w);
    ReportedFetched(j, w);
    ReportedStarts(j, w);
  }

  /** The runner has the job in hand, and it was cancelled. */
  function CancelledInHand(j: JobId, w: WorkerId): (s: State)
    ensures WF(s)
  {
    Cancel(Scene(j, w, Queued, Active, [], [Hand(Remote(w), j)], [], multiset{}), j)
  }

  lemma CancelledInHandRecord(j: JobId, w: WorkerId)
    ensures var s := CancelledInHand(j, w);
      && Heard(s, w, j) && s.nodes[w].queue == [] && j in s.jobs && s.jobs[j].cancelled && s.jobs[j].status == Cancelled
  {
  }

  lemma CancelledInHandReached(j: JobId, w: WorkerId)
    ensures Reached(CancelledInHand(j, w))
  {
    FetchedReached(j, w);
    ReachedStep(Scene(j, w, Queued, Active, [], [Hand(Remote(w), j)], [], multiset{}), DoCancel(j));
  }

  /** A fetched job is cancelled, and its worker reports it COMPLETED without having begun it: the report wins. */
  lemma ReportOverridesCancel(j: JobId, w: WorkerId)
    ensures var s := CancelledInHand(j, w);
      var r := Report(s, w, j, Completed);
      && Reached(s) && j in s.jobs && s.jobs[j].cancelled && s.jobs[j].status == Cancelled
      && Harmless(s, DoReport(w, j, Completed)) && j in r.jobs && r.jobs[j].status == Completed
  {
    CancelledInHandReached(j, w);
    CancelledInHandRecord(j, w);
    ReportConcludes(CancelledInHand(j, w), w, j, Completed);
  }

  // ---------------------------------------------------------------- submitted again, cleared

  lemma SubmittedTwice(j: JobId, w: WorkerId)
    ensures Destination(Waiting(j, w), j, NewJob(Spec(w), false)) == Some(w)
    ensures w in Submit(Waiting(j, w), j, NewJob(Spec(w), false)).nodes
    ensures Submit(Waiting(j, w), j, NewJob(Spec(w), false)).nodes[w] == TheNode(Active, [j, j], [j])
  {
  }

  /** A waiting job is submitted again: it waits on its worker twice. */
  lemma ResubmissionDoubles(j: JobId, w: WorkerId)
    ensures var r := Submit(Waiting(j, w), j, NewJob(Spec(w), false));
      Reached(Waiting(j, w)) && w in r.nodes && r.nodes[w] == TheNode(Active, [j, j], [j]) && !Inv(r)
  {
    WaitingReached(j, w);
    SubmittedTwice(j, w);
    SubmitKeepsInvIff(Waiting(j, w), j, NewJob(Spec(w), false));
  }

  /** A cancelled job still waits on its worker when `clear_jobs` forgets it. */
  lemma ClearingStrands(j: JobId, w: WorkerId)
    ensures var s := Cancel(Waiting(j, w), j);
      && Reached(s) && j !in ClearJobs(s).registry && j in ClearJobs(s).nodes[w].held && !Inv(ClearJobs(s))
  {
    var s := Cancel(Waiting(j, w), j);
    WaitingReached(j, w);
    ReachedStep(Waiting(j, w), DoCancel(j));
    ReachedInv(s);
    HeldOnce(s, w, j);
    ClearJobsKeepsInvIff(s);
  }

  // ---------------------------------------------------------------- dropped in bulk

  /** The manager shuts down while a job waits on a worker: the job waits nowhere. */
  lemma ShutdownLoses(j: JobId, w: WorkerId)
    ensures Reached(Waiting(j, w)) && !Inv(DropWorkers(Waiting(j, w)))
  {
    WaitingReached(j, w);
    WaitingRecord(j, w);
    assert !HoldsOnlyFinished(Waiting(j, w), w);
    DropWorkersKeepsInvIff(Waiting(j, w));
  }

  /** The central queue is cleared while a job waits there. */
  lemma ClearingQueueLoses(j: JobId)
    ensures var s := Step(InitialState, DoSubmit(j, Plain(20), false));
      Reached(s) && !Inv(ClearQueue(s))
  {
    var s := Step(InitialState, DoSubmit(j, Plain(20), false));
    ReachedBy(InitialState, []);
    ReachedStep(InitialState, DoSubmit(j, Plain(20), false));
    ReachedInv(s);
    SubmitPlain(InitialState, j, 20);
    assert Item(20, 0.0, 1, j) in s.central && s.jobs[j].status == Queued;
    ClearQueueKeepsInvIff(s);
  }
}
