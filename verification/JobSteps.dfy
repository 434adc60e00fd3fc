/**
 Which steps keep every job in one place: for each of them an exact condition on the state before it,
 and the invariant over all runs whose steps meet it.
 */
module JobSteps {
  import opened Prelude
  import opened Tallies
  import opened JobProtocol
  import opened JobBudget
  import opened JobPlaces

  // ---------------------------------------------------------------- the conditions

  /** `j` is in no place, and no stale hand of `w` is on it. */
  predicate FreeFor(s: State, j: JobId, w: WorkerId) {
    Places(s, j) == 0 && InHands(s, Hand(Remote(w), j)) == 0
  }

  /** The worker a submission of `j` hands it to, or None for the central queue. */
  function Destination(s: State, j: JobId, rec: JobRec): Option<WorkerId> {
    Route(s.nodes, s.order, (if j in s.jobs then s.jobs[j] else rec).(status := Queued))
  }

  /** A known job may be submitted again when it is in no place and free for the worker it goes to. */
  predicate MaySubmit(s: State, j: JobId, rec: JobRec) {
    j in s.jobs ==>
      Places(s, j) == 0 && (Destination(s, j, rec).Some? ==> FreeFor(s, j, Destination(s, j, rec).value))
  }

  /** A report counts when the manager knows the worker and the engine tracks the job. */
  predicate Heard(s: State, w: WorkerId, j: JobId) {
    w in s.nodes && j in s.registry
  }

  /**
   Whoever makes it: a report that the job goes on needs a place the job is in; one that sends it back
   to the worker's queue needs the job free for that worker, which must not be OFFLINE; any other
   outcome may come except while the job still waits in that worker's queue.
   */
  predicate MayReport(s: State, w: WorkerId, j: JobId, status: JobStatus)
    requires WF(s)
  {
    Heard(s, w, j) ==>
      if !Terminal(status) then Places(s, j) >= 1
      else if status == Failed && RetriesLeft(s.jobs[j]) then FreeFor(s, j, w) && s.nodes[w].status != Offline
      else j !in s.nodes[w].queue
  }

  /** A runner may pick up a job its node holds, a cancelled one, or one that is in some place. */
  predicate MayPickUp(s: State, h: Hand)
    requires WF(s) && h.job in s.jobs
  {
    h.holder.Remote? && !Live(s, h) && Heard(s, h.holder.worker, h.job) ==>
      s.jobs[h.job].cancelled || Places(s, h.job) >= 1
  }

  /**
   A runner may report how a job its node holds ended; of a job it lost any outcome but one that asks
   for a retry, or that too when the job is in no place, its node not OFFLINE and this its only hand.
   */
  predicate MayEnd(s: State, h: Hand, raised: bool)
    requires WF(s) && h.job in s.jobs
  {
    h.holder.Remote? && !Live(s, h) && Heard(s, h.holder.worker, h.job) && raised && RetriesLeft(s.jobs[h.job]) ==>
      Places(s, h.job) == 0 && s.nodes[h.holder.worker].status != Offline && InHands(s, h) == 1
  }

  predicate HoldsOnlyFinished(s: State, w: WorkerId) {
    w in s.nodes ==> forall j | j in s.nodes[w].held :: j in s.jobs && Terminal(s.jobs[j].status)
  }

  /** The steps that keep every job in its place, see `StepInvIff`. */
  predicate Harmless(s: State, op: Op)
    requires WF(s)
  {
    match op
    case DoSubmit(j, spec, c) => MaySubmit(s, j, NewJob(spec, c))
    case DoAssign(j, w) => CanAssign(s, j, w) ==> FreeFor(s, j, w)
    case DoBeginRemote(k) => k < |s.picked| ==> MayPickUp(s, s.picked[k])
    case DoEndRemote(k, raised) => k < |s.running| ==> MayEnd(s, s.running[k], raised)
    case DoReport(w, j, status) => MayReport(s, w, j, status)
    case DoRegister(w, _, _) => HoldsOnlyFinished(s, w)
    case DoUnregister(w) => HoldsOnlyFinished(s, w)
    case DoClearJobs => forall j | j in s.registry && Terminal(s.jobs[j].status) :: Places(s, j) == 0
    case DoDropWorkers => forall w | w in s.nodes :: HoldsOnlyFinished(s, w)
    case DoClearQueue => forall i | i in s.central :: Terminal(s.jobs[i.job].status)
    case _ => true
  }

  predicate HarmlessRun(s: State, ops: seq<Op>)
    requires WF(s)
    decreases |ops|
  {
    ops == [] || (Harmless(s, ops[0]) && HarmlessRun(Step(s, ops[0]), ops[1..]))
  }

  // ---------------------------------------------------------------- assignments and submissions

  /** Before its job is placed on it, a node is as the invariant wants it. */
  lemma PlaceOnCounts(s: State, x: JobId, w: WorkerId)
    requires WF(s) && x in s.jobs && w in s.nodes
    ensures Places(PlaceOn(s, x, w), x) == Places(s, x) + (if x in s.nodes[w].held then 0 else 1)
    ensures OnNode(PlaceOn(s, x, w), w, x) == OnNode(s, w, x) + 1
    ensures x in PlaceOn(s, x, w).nodes[w].held
  {
    SetNodePlaces(SetJob(s, x, Sent(s.jobs[x], w)), w, Joined(s.nodes[w], x), x);
    SumAppend(s.nodes[w].queue, x, IsId(x));
  }

  /** Placing a job that is not free for the worker gives it two places, or two copies on the node. */
  lemma PlaceOnBreaks(s: State, x: JobId, w: WorkerId)
    requires WF(s) && x in s.jobs && w in s.nodes && NodeInv(s, w) && !FreeFor(s, x, w)
    ensures !Inv(PlaceOn(s, x, w))
  {
    PlaceOnCounts(s, x, w);
    assert !NodeInv(PlaceOn(s, x, w), w) || !JobInv(PlaceOn(s, x, w), x);
  }

  /** A job in no place is on no node either, except in stale hands. */
  lemma FreeOffNode(s: State, x: JobId, w: WorkerId)
    requires WF(s) && w in s.nodes && NodeInv(s, w) && FreeFor(s, x, w)
    ensures OnNode(s, w, x) == 0
  {
    if x in s.nodes[w].held {
      HeldOnce(s, w, x);
    }
    SumZero(s.nodes[w].queue, IsId(x));
  }

  /** A tracked job that is nowhere can be taken as being in transit. */
  lemma NowhereIsTransit(s: State, x: JobId)
    requires Inv(s) && x in s.registry && Places(s, x) == 0
    ensures InvExcept(s, [x])
  {
    forall j ensures if j in [x] then InTransit(s, j) else JobInv(s, j) {
      assert JobInv(s, j);
    }
  }

  lemma AssignInv(s: State, x: JobId, w: WorkerId)
    requires Inv(s) && CanAssign(s, x, w) && FreeFor(s, x, w)
    ensures Inv(Assign(s, x, w))
  {
    assert NodeInv(s, w);
    FreeOffNode(s, x, w);
    NowhereIsTransit(s, x);
    PlaceOnInv(s, x, w);
    BookkeepingInv(PlaceOn(s, x, w), Assign(s, x, w), []);
  }

  lemma AssignBreaks(s: State, x: JobId, w: WorkerId)
    requires Inv(s) && CanAssign(s, x, w) && !FreeFor(s, x, w)
    ensures !Inv(Assign(s, x, w))
  {
    assert NodeInv(s, w);
    PlaceOnBreaks(s, x, w);
    if Inv(Assign(s, x, w)) {
      BookkeepingInv(Assign(s, x, w), PlaceOn(s, x, w), []);
    }
  }

  /**
   A manual assignment of a tracked job to an active worker keeps the invariant exactly when the
   job is in no place and that worker has no stale hand on it.
   */
  lemma AssignKeepsInvIff(s: State, x: JobId, w: WorkerId)
    requires Inv(s) && CanAssign(s, x, w)
    ensures Inv(Assign(s, x, w)) <==> Places(s, x) == 0 && InHands(s, Hand(Remote(w), x)) == 0
  {
    if FreeFor(s, x, w) {
      AssignInv(s, x, w);
    } else {
      AssignBreaks(s, x, w);
    }
  }

  /** A job that is admitted and nowhere finds its place, in the queue or on the worker it is free for. */
  lemma DeliverInv(s: State, x: JobId)
    requires InvExcept(s, [x]) && x in s.jobs
    requires var to := Route(s.nodes, s.order, s.jobs[x]); to.Some? ==> FreeFor(s, x, to.value)
    ensures match Route(s.nodes, s.order, s.jobs[x])
            case Some(w) => Inv(PlaceOn(s, x, w))
            case None => Inv(PutCentral(s, x))
  {
    match Route(s.nodes, s.order, s.jobs[x]) {
      case Some(w) =>
        assert NodeInv(s, w);
        FreeOffNode(s, x, w);
        PlaceOnInv(s, x, w);
      case None => PutCentralInv(s, x, [x], []);
    }
  }

  lemma PutCentralBreaks(s: State, x: JobId)
    requires WF(s) && x in s.jobs && Places(s, x) >= 1
    ensures !Inv(PutCentral(s, x))
  {
    PutCentralPlaces(s, x, x);
    assert !JobInv(PutCentral(s, x), x);
  }

  lemma SubmitInv(s: State, x: JobId, rec: JobRec)
    requires Inv(s) && MaySubmit(s, x, rec)
    ensures Inv(Submit(s, x, rec))
  {
    if x !in s.jobs {
      UnknownNowhere(s, x);
    }
    var admitted := if x in s.jobs then s.jobs[x] else rec;
    var s1 := Admit(s, x, admitted);
    AdmitCounts(s, x, admitted);
    AdmitInv(s, x, admitted);
    UnknownFree(s, x, rec);
    DeliverInv(s1, x);
  }

  /** A fresh job is free for every worker. */
  lemma UnknownFree(s: State, x: JobId, rec: JobRec)
    requires WF(s) && MaySubmit(s, x, rec)
    ensures Destination(s, x, rec).Some? ==> FreeFor(s, x, Destination(s, x, rec).value)
  {
    if x !in s.jobs {
      UnknownNowhere(s, x);
    }
  }

  lemma SubmitBreaks(s: State, x: JobId, rec: JobRec)
    requires Inv(s) && !MaySubmit(s, x, rec)
    ensures !Inv(Submit(s, x, rec))
  {
    var s1 := Admit(s, x, s.jobs[x]);
    AdmitCounts(s, x, s.jobs[x]);
    AdmitNodesInv(s, x, s.jobs[x]);
    match Route(s1.nodes, s1.order, s1.jobs[x]) {
      case Some(w) =>
        assert NodeInv(s1, w);
        PlaceOnBreaks(s1, x, w);
      case None => PutCentralBreaks(s1, x);
    }
  }

  /**
   A submission keeps the invariant exactly when the job is new, or in no place and without a stale
   hand of the worker it goes to.
   */
  lemma SubmitKeepsInvIff(s: State, x: JobId, rec: JobRec)
    requires Inv(s)
    ensures Inv(Submit(s, x, rec)) <==> MaySubmit(s, x, rec)
  {
    if MaySubmit(s, x, rec) {
      SubmitInv(s, x, rec);
    } else {
      SubmitBreaks(s, x, rec);
    }
  }

  // ---------------------------------------------------------------- reports

  /** A record may say that the job goes on exactly while it is in some place. */
  lemma GoesOnIff(s: State, x: JobId, status: JobStatus)
    requires Inv(s) && x in s.jobs && !Terminal(status)
    ensures Inv(SetJob(s, x, s.jobs[x].(status := status))) <==> Places(s, x) >= 1
  {
    var r := SetJob(s, x, s.jobs[x].(status := status));
    if Places(s, x) >= 1 {
      SetJobInv(s, x, s.jobs[x].(status := status), []);
    } else {
      assert Places(r, x) == Places(s, x);
      assert !JobInv(r, x);
    }
  }

  lemma {:induction false} DropAbsent(keys: seq<JobId>, key: JobId)
    requires key !in keys
    ensures Drop(keys, key) == keys
  {
    if keys != [] {
      DropAbsent(keys[1..], key);
    }
  }

  /** A node that does not hold the job: only its record changes. */
  lemma SettleLostInv(s: State, w: WorkerId, x: JobId, status: JobStatus)
    requires Inv(s) && w in s.nodes && x in s.jobs && x !in s.nodes[w].held && Terminal(status)
    ensures Inv(SettleOn(s, w, x, status))
  {
    DropAbsent(s.nodes[w].held, x);
    assert NodeInv(s, w);
    var rec := s.jobs[x].(status := status);
    SetJobInv(s, x, rec, []);
    TouchNodeInv(SetJob(s, x, rec), w, LetGo(s.nodes[w], x));
  }

  /** A node that holds the job and has it in hand lets go of it. */
  lemma SettleHeldInv(s: State, w: WorkerId, x: JobId, status: JobStatus)
    requires Inv(s) && w in s.nodes && x in s.nodes[w].held && x !in s.nodes[w].queue && Terminal(status)
    ensures x in s.jobs && Inv(SettleOn(s, w, x, status))
  {
    var r := SettleOn(s, w, x, status);
    forall j ensures Places(r, j) + IsId(j)(x) == Places(s, j) {
      SettleOnPlaces(s, w, x, status, j);
    }
    SettleJobsInv(s, r, x, status);
    SettleHeldNodesInv(s, w, x, status);
  }

  lemma SettleHeldNodesInv(s: State, w: WorkerId, x: JobId, status: JobStatus)
    requires WF(s) && NodesInv(s) && w in s.nodes && x in s.jobs && x !in s.nodes[w].queue
    ensures NodesInv(SettleOn(s, w, x, status))
  {
    var r := SettleOn(s, w, x, status);
    forall v | v in r.nodes ensures NodeInv(r, v) {
      assert NodeInv(s, v);
      assert forall j :: OnNode(r, v, j) == OnNode(s, v, j);
    }
  }

  /** A job let go of while it still waits in the node's queue. */
  lemma SettleQueuedBreaks(s: State, w: WorkerId, x: JobId, status: JobStatus)
    requires WF(s) && w in s.nodes && x in s.jobs && x in s.nodes[w].queue
    ensures !Inv(SettleOn(s, w, x, status))
  {
    var r := SettleOn(s, w, x, status);
    assert w in r.nodes && x in r.nodes[w].queue && x !in r.nodes[w].held;
    assert !NodeInv(r, w);
  }

  lemma SettleIff(s: State, w: WorkerId, x: JobId, status: JobStatus)
    requires Inv(s) && w in s.nodes && x in s.jobs && Terminal(status)
    ensures Inv(SettleOn(s, w, x, status)) <==> x !in s.nodes[w].queue
  {
    if x in s.nodes[w].queue {
      SettleQueuedBreaks(s, w, x, status);
    } else if x in s.nodes[w].held {
      SettleHeldInv(s, w, x, status);
    } else {
      SettleLostInv(s, w, x, status);
    }
  }

  lemma RetryOnCounts(s: State, w: WorkerId, x: JobId)
    requires WF(s) && w in s.nodes && x in s.jobs
    ensures Places(RetryOn(s, w, x), x) == Places(s, x) + (if x in s.nodes[w].held then 0 else 1)
    ensures OnNode(RetryOn(s, w, x), w, x) == OnNode(s, w, x) + 1
    ensures x in RetryOn(s, w, x).nodes[w].held
  {
    SetNodePlaces(SetJob(s, x, Requeued(s.jobs[x])), w, Again(s.nodes[w], x), x);
    SumAppend(s.nodes[w].queue, x, IsId(x));
  }

  lemma RetryLostInv(s: State, w: WorkerId, x: JobId)
    requires Inv(s) && Heard(s, w, x) && FreeFor(s, x, w) && s.nodes[w].status != Offline
    ensures Inv(RetryOn(s, w, x))
  {
    var node := s.nodes[w];
    assert NodeInv(s, w);
    FreeOffNode(s, x, w);
    if x in node.held {
      HeldOnce(s, w, x);
    }
    DropAbsent(node.held, x);
    NowhereIsTransit(s, x);
    SetJobInv(s, x, Requeued(s.jobs[x]), [x]);
    assert Again(node, x) == Joined(node, x);
    JoinInv(SetJob(s, x, Requeued(s.jobs[x])), x, w, Again(node, x));
  }

  lemma RetryBreaks(s: State, w: WorkerId, x: JobId)
    requires Inv(s) && Heard(s, w, x) && !(FreeFor(s, x, w) && s.nodes[w].status != Offline)
    ensures !Inv(RetryOn(s, w, x))
  {
    RetryOnCounts(s, w, x);
    assert NodeInv(s, w) && w in RetryOn(s, w, x).nodes;
    assert !NodeInv(RetryOn(s, w, x), w) || !JobInv(RetryOn(s, w, x), x);
  }

  /** What a heard report does. */
  lemma ReportDoes(s: State, w: WorkerId, x: JobId, status: JobStatus)
    requires WF(s) && Heard(s, w, x)
    ensures Report(s, w, x, status) ==
      if !Terminal(status) then SetJob(s, x, s.jobs[x].(status := status))
      else if status == Failed && RetriesLeft(s.jobs[x]) then RetryOn(s, w, x)
      else SettleOn(s, w, x, status)
  {
  }

  /** A report, by whatever worker and however made, keeps the invariant exactly under `MayReport`. */
  lemma ReportKeepsInvIff(s: State, w: WorkerId, x: JobId, status: JobStatus)
    requires Inv(s)
    ensures Inv(Report(s, w, x, status)) <==> MayReport(s, w, x, status)
  {
    if Heard(s, w, x) {
      ReportDoes(s, w, x, status);
      if !Terminal(status) {
        GoesOnIff(s, x, status);
      } else if !(status == Failed && RetriesLeft(s.jobs[x])) {
        SettleIff(s, w, x, status);
      } else if FreeFor(s, x, w) && s.nodes[w].status != Offline {
        RetryLostInv(s, w, x);
      } else {
        RetryBreaks(s, w, x);
      }
    }
  }

  /**
   The outcome of a job, reported directly by the worker that holds it, keeps the invariant exactly
   when it asks for no retry and the job does not wait in that worker's queue any more.
   */
  lemma HeldReportKeepsInvIff(s: State, w: WorkerId, x: JobId, status: JobStatus)
    requires Inv(s) && w in s.nodes && x in s.nodes[w].held && Terminal(status)
    ensures Inv(Report(s, w, x, status)) <==>
              !(status == Failed && RetriesLeft(s.jobs[x])) && x !in s.nodes[w].queue
  {
    HeldIsTracked(s, w, x);
    ReportKeepsInvIff(s, w, x, status);
  }

  // ---------------------------------------------------------------- runners that lost their job

  /** A hand on a job its node no longer holds can vanish. */
  lemma StopStaleInv(s: State, k: nat)
    requires Inv(s) && k < |s.running| && s.running[k].holder.Remote? && !Live(s, s.running[k])
    ensures Inv(Stop(s, k))
    ensures InHands(Stop(s, k), s.running[k]) + 1 == InHands(s, s.running[k])
    ensures Places(Stop(s, k), s.running[k].job) == Places(s, s.running[k].job)
  {
    var h := s.running[k];
    var r := Stop(s, k);
    assert HandGone(s, r, h) by {
      forall x: Hand ensures InHands(r, x) + IsHand(x)(h) == InHands(s, x) {
        StopHands(s, k, x);
      }
    }
    assert InHands(r, h) + IsHand(h)(h) == InHands(s, h);
    StaleHandInv(s, r, h);
    RemoteHandCounts(s, r, h, h.job);
  }

  lemma StaleHandInv(s: State, r: State, h: Hand)
    requires Inv(s) && WF(r) && HandGone(s, r, h) && h.holder.Remote? && !Live(s, h)
    ensures Inv(r)
  {
    assert JobsInv(r, []) by {
      forall j ensures JobInv(r, j) {
        RemoteHandCounts(s, r, h, j);
        assert JobInv(s, j);
      }
    }
    assert NodesInv(r) by {
      forall w | w in r.nodes ensures NodeInv(r, w) {
        StaleHandNodeInv(s, r, h, w);
      }
    }
  }

  lemma StaleHandNodeInv(s: State, r: State, h: Hand, w: WorkerId)
    requires Inv(s) && HandGone(s, r, h) && h.holder.Remote? && !Live(s, h) && w in s.nodes
    ensures NodeInv(r, w)
  {
    assert NodeInv(s, w);
    forall j | j in r.nodes[w].held ensures OnNode(r, w, j) == 1 {
      RemoteHandCounts(s, r, h, j);
    }
  }

  lemma PutDownStaleInv(s: State, k: nat)
    requires Inv(s) && k < |s.picked| && s.picked[k].holder.Remote? && !Live(s, s.picked[k])
    ensures Inv(PutDown(s, k))
  {
    var h := s.picked[k];
    var r := PutDown(s, k);
    assert HandGone(s, r, h) by {
      forall x: Hand ensures InHands(r, x) + IsHand(x)(h) == InHands(s, x) {
        PutDownHands(s, k, x);
      }
    }
    StaleHandInv(s, r, h);
  }

  /** The report of an outcome is a report by a runner that has stopped. */
  lemma EndRemoteReports(s: State, k: nat, raised: bool)
    requires WF(s) && k < |s.running| && s.running[k].holder.Remote?
    ensures EndRemote(s, k, raised) ==
      Report(Stop(s, k), s.running[k].holder.worker, s.running[k].job, if raised then Failed else Completed)
  {
  }

  lemma LateOutcomeIff(s: State, k: nat, raised: bool)
    requires Inv(s) && k < |s.running| && s.running[k].holder.Remote? && !Live(s, s.running[k])
    ensures var h := s.running[k];
      MayReport(Stop(s, k), h.holder.worker, h.job, if raised then Failed else Completed) <==> MayEnd(s, h, raised)
  {
    var h := s.running[k];
    StopStaleInv(s, k);
    if h.holder.worker in s.nodes {
      assert NodeInv(s, h.holder.worker);
    }
  }

  /**
   A late report of the outcome, by a worker that does not hold the job any more, keeps the invariant
   exactly when it is not heard, or asks for no retry, or the job is in no place, the node is not
   OFFLINE and the worker has no second hand on the job.
   */
  lemma LateReportKeepsInvIff(s: State, k: nat, raised: bool)
    requires Inv(s) && k < |s.running| && s.running[k].holder.Remote? && !Live(s, s.running[k])
    ensures var h := s.running[k];
      Inv(EndRemote(s, k, raised)) <==>
        || h.holder.worker !in s.nodes || h.job !in s.registry
        || !(raised && RetriesLeft(s.jobs[h.job]))
        || (Places(s, h.job) == 0 && s.nodes[h.holder.worker].status != Offline && InHands(s, h) == 1)
  {
    var h := s.running[k];
    StopStaleInv(s, k);
    EndRemoteReports(s, k, raised);
    ReportKeepsInvIff(Stop(s, k), h.holder.worker, h.job, if raised then Failed else Completed);
    LateOutcomeIff(s, k, raised);
  }

  /** A pickup that nobody hears of. */
  lemma UnheardPickup(s: State, k: nat)
    requires WF(s) && k < |s.picked| && s.picked[k].holder.Remote?
    requires !Heard(s, s.picked[k].holder.worker, s.picked[k].job)
    ensures BeginRemote(s, k) ==
      if s.jobs[s.picked[k].job].cancelled then PutDown(s, k) else StartTarget(PutDown(s, k), s.picked[k])
  {
  }

  lemma LatePickupCancelled(s: State, k: nat)
    requires Inv(s) && k < |s.picked| && s.picked[k].holder.Remote? && !Live(s, s.picked[k])
    requires s.jobs[s.picked[k].job].cancelled
    ensures Inv(BeginRemote(s, k))
  {
    var h := s.picked[k];
    PutDownStaleInv(s, k);
    if Heard(s, h.holder.worker, h.job) {
      SettleAfterRunning(PutDown(s, k), h.holder.worker, h.job);
      SettleLostInv(PutDown(s, k), h.holder.worker, h.job, Cancelled);
    } else {
      UnheardPickup(s, k);
    }
  }

  lemma LatePickupRuns(s: State, k: nat)
    requires Inv(s) && k < |s.picked| && s.picked[k].holder.Remote? && !Live(s, s.picked[k])
    requires !s.jobs[s.picked[k].job].cancelled
    ensures Inv(BeginRemote(s, k)) <==>
              !Heard(s, s.picked[k].holder.worker, s.picked[k].job) || Places(s, s.picked[k].job) >= 1
  {
    var h := s.picked[k];
    StartPickedInv(s, k);
    if Heard(s, h.holder.worker, h.job) {
      BeginRemoteRuns(s, k);
      GoesOnIff(StartTarget(PutDown(s, k), h), h.job, Running);
    } else {
      UnheardPickup(s, k);
    }
  }

  /**
   A late pickup, by a worker that no longer holds the job, keeps the invariant exactly when its
   report is not heard, or the job is cancelled or still in some place: otherwise the RUNNING report
   revives a finished job that is nowhere.
   */
  lemma LatePickupKeepsInvIff(s: State, k: nat)
    requires Inv(s) && k < |s.picked| && s.picked[k].holder.Remote? && !Live(s, s.picked[k])
    ensures var h := s.picked[k];
      Inv(BeginRemote(s, k)) <==>
        h.holder.worker !in s.nodes || h.job !in s.registry || s.jobs[h.job].cancelled || Places(s, h.job) >= 1
  {
    if s.jobs[s.picked[k].job].cancelled {
      LatePickupCancelled(s, k);
    } else {
      LatePickupRuns(s, k);
    }
  }

  // ---------------------------------------------------------------- workers, the registry and the queue

  /** A node vanishes, or comes back empty, and the jobs it held lose their place. */
  ghost predicate NodeLost(s: State, r: State, w: WorkerId) {
    && WF(r) && r == s.(order := r.order, nodes := r.nodes)
    && w in s.nodes
    && (forall v | v in r.nodes && v != w :: v in s.nodes && r.nodes[v] == s.nodes[v])
    && (w in r.nodes ==> r.nodes[w].held == [] && r.nodes[w].queue == [])
    && forall j :: Places(r, j) + Holds(s.nodes[w], j) == Places(s, j)
  }

  lemma NodeLostIff(s: State, r: State, w: WorkerId)
    requires Inv(s) && NodeLost(s, r, w)
    ensures Inv(r) <==> HoldsOnlyFinished(s, w)
  {
    NodeLostNodesInv(s, r, w);
    if HoldsOnlyFinished(s, w) {
      NodeLostJobsInv(s, r, w);
    } else {
      var j :| j in s.nodes[w].held && !Terminal(s.jobs[j].status);
      HeldOnce(s, w, j);
      assert JobInv(s, j) && Places(r, j) + Holds(s.nodes[w], j) == Places(s, j);
      assert !JobInv(r, j);
    }
  }

  lemma NodeLostNodesInv(s: State, r: State, w: WorkerId)
    requires Inv(s) && NodeLost(s, r, w)
    ensures NodesInv(r)
  {
    forall v | v in r.nodes ensures NodeInv(r, v) {
      if v != w {
        assert NodeInv(s, v);
        assert forall j :: OnNode(r, v, j) == OnNode(s, v, j);
      }
    }
  }

  lemma NodeLostJobsInv(s: State, r: State, w: WorkerId)
    requires Inv(s) && NodeLost(s, r, w) && HoldsOnlyFinished(s, w)
    ensures JobsInv(r, [])
  {
    forall j ensures JobInv(r, j) {
      assert JobInv(s, j) && Places(r, j) + Holds(s.nodes[w], j) == Places(s, j);
    }
  }

  lemma {:induction false} DropSumZero(keys: seq<WorkerId>, key: WorkerId, f: WorkerId -> nat)
    requires f(key) == 0
    ensures Sum(Drop(keys, key), f) == Sum(keys, f)
  {
    if keys != [] {
      DropSumZero(keys[1..], key, f);
      var rest := Drop(keys[1..], key);
      assert ([keys[0]] + rest)[1..] == rest;
    }
  }

  lemma UnregisterPlaces(s: State, w: WorkerId, j: JobId)
    requires WF(s) && w in s.nodes
    ensures Places(Unregister(s, w), j) + Holds(s.nodes[w], j) == Places(s, j)
  {
    var after := HeldOn(s.nodes - {w}, j);
    DropSumZero(s.order, w, after);
    SumUpdate(s.order, w, HeldOn(s.nodes, j), after);
  }

  /** Unregistering a worker keeps the invariant exactly when every job it holds is finished, as cancelled ones are. */
  lemma UnregisterKeepsInvIff(s: State, w: WorkerId)
    requires Inv(s)
    ensures Inv(Unregister(s, w)) <==> HoldsOnlyFinished(s, w)
  {
    if w in s.nodes {
      UnregisterLoses(s, w);
      NodeLostIff(s, Unregister(s, w), w);
    } else {
      UnregisterUnknown(s, w);
    }
  }

  lemma UnregisterLoses(s: State, w: WorkerId)
    requires WF(s) && w in s.nodes
    ensures NodeLost(s, Unregister(s, w), w)
  {
    forall j ensures Places(Unregister(s, w), j) + Holds(s.nodes[w], j) == Places(s, j) {
      UnregisterPlaces(s, w, j);
    }
  }

  lemma UnregisterUnknown(s: State, w: WorkerId)
    requires WF(s) && w !in s.nodes
    ensures Unregister(s, w) == s
  {
    DropAbsent(s.order, w);
    assert s.nodes - {w} == s.nodes;
  }

  /** So does registering a worker under an id that may be taken: the node under it is replaced. */
  lemma RegisterKeepsInvIff(s: State, w: WorkerId, capabilities: set<string>, now: real)
    requires Inv(s)
    ensures Inv(Register(s, w, capabilities, now)) <==> HoldsOnlyFinished(s, w)
  {
    if w in s.nodes {
      var r := Register(s, w, capabilities, now);
      assert r == SetNode(s, w, r.nodes[w]);
      forall j ensures Places(r, j) + Holds(s.nodes[w], j) == Places(s, j) {
        SetNodePlaces(s, w, r.nodes[w], j);
      }
      NodeLostIff(s, r, w);
    } else {
      RegisterInv(s, w, capabilities, now);
    }
  }

  /** The workers are all forgotten: of the places only those off the nodes are left. */
  lemma DropWorkersPlaces(s: State, j: JobId)
    requires WF(s)
    ensures Places(DropWorkers(s), j) + Sum(s.order, HeldOn(s.nodes, j)) == Places(s, j)
  {
  }

  lemma DropWorkersJobInv(s: State, j: JobId)
    requires Inv(s) && forall w | w in s.nodes :: HoldsOnlyFinished(s, w)
    ensures JobInv(DropWorkers(s), j)
  {
    DropWorkersPlaces(s, j);
    assert JobInv(s, j);
    SumZero(s.order, HeldOn(s.nodes, j));
    if Places(DropWorkers(s), j) == 0 && Places(s, j) != 0 {
      var w :| w in s.order && HeldOn(s.nodes, j)(w) != 0;
      assert HoldsOnlyFinished(s, w);
    }
  }

  lemma DropWorkersBreaks(s: State, w: WorkerId)
    requires Inv(s) && !HoldsOnlyFinished(s, w)
    ensures !Inv(DropWorkers(s))
  {
    var j :| j in s.nodes[w].held && !Terminal(s.jobs[j].status);
    HeldIsTracked(s, w, j);
    HeldByOne(s, w, j);
    DropWorkersPlaces(s, j);
    assert !JobInv(DropWorkers(s), j);
  }

  /** Forgetting all workers keeps the invariant exactly when all they hold is finished. */
  lemma DropWorkersKeepsInvIff(s: State)
    requires Inv(s)
    ensures Inv(DropWorkers(s)) <==> forall w | w in s.nodes :: HoldsOnlyFinished(s, w)
  {
    if w :| w in s.nodes && !HoldsOnlyFinished(s, w) {
      DropWorkersBreaks(s, w);
    } else {
      forall j ensures JobInv(DropWorkers(s), j) {
        DropWorkersJobInv(s, j);
      }
    }
  }

  lemma ClearQueuePlaces(s: State, j: JobId)
    requires WF(s)
    ensures Places(ClearQueue(s), j) + Sum(s.central, IsItemOf(j)) == Places(s, j)
    ensures forall w | w in s.nodes :: OnNode(ClearQueue(s), w, j) == OnNode(s, w, j)
  {
  }

  lemma ClearQueueJobInv(s: State, j: JobId)
    requires Inv(s) && forall i | i in s.central :: Terminal(s.jobs[i.job].status)
    ensures JobInv(ClearQueue(s), j)
  {
    ClearQueuePlaces(s, j);
    assert JobInv(s, j);
    SumZero(s.central, IsItemOf(j));
  }

  lemma ClearQueueBreaks(s: State, i: Item)
    requires Inv(s) && i in s.central && !Terminal(s.jobs[i.job].status)
    ensures !Inv(ClearQueue(s))
  {
    ClearQueuePlaces(s, i.job);
    SumZero(s.central, IsItemOf(i.job));
    assert IsItemOf(i.job)(i) == 1;
    assert JobInv(s, i.job);
    assert !JobInv(ClearQueue(s), i.job);
  }

  /** Emptying the central queue keeps the invariant exactly when all that waits there is finished. */
  lemma ClearQueueKeepsInvIff(s: State)
    requires Inv(s)
    ensures Inv(ClearQueue(s)) <==> forall i | i in s.central :: Terminal(s.jobs[i.job].status)
  {
    if i :| i in s.central && !Terminal(s.jobs[i.job].status) {
      ClearQueueBreaks(s, i);
    } else {
      forall j ensures JobInv(ClearQueue(s), j) {
        ClearQueueJobInv(s, j);
      }
      forall w | w in s.nodes ensures NodeInv(ClearQueue(s), w) {
        assert NodeInv(s, w);
        forall j ensures OnNode(ClearQueue(s), w, j) == OnNode(s, w, j) {
          ClearQueuePlaces(s, j);
        }
      }
    }
  }

  lemma ClearJobsCounts(s: State)
    requires WF(s)
    ensures forall j :: Places(ClearJobs(s), j) == Places(s, j)
    ensures forall w, j | w in s.nodes :: OnNode(ClearJobs(s), w, j) == OnNode(s, w, j)
  {
  }

  /** `clear_jobs` keeps the invariant exactly when no finished job is left in some place, as a cancelled one may be. */
  lemma ClearJobsKeepsInvIff(s: State)
    requires Inv(s)
    ensures Inv(ClearJobs(s)) <==> forall j | j in s.registry && Terminal(s.jobs[j].status) :: Places(s, j) == 0
  {
    var r := ClearJobs(s);
    ClearJobsCounts(s);
    if j :| j in s.registry && Terminal(s.jobs[j].status) && Places(s, j) != 0 {
      assert Places(r, j) == Places(s, j);
      assert !JobInv(r, j);
    } else {
      forall j ensures JobInv(r, j) {
        assert JobInv(s, j) && Places(r, j) == Places(s, j);
      }
      forall w | w in r.nodes ensures NodeInv(r, w) {
        assert NodeInv(s, w);
      }
    }
  }

  // ---------------------------------------------------------------- every step

  lemma BeginRemoteIff(s: State, k: nat)
    requires Inv(s)
    ensures Inv(BeginRemote(s, k)) <==> (k < |s.picked| ==> MayPickUp(s, s.picked[k]))
  {
    if k < |s.picked| && s.picked[k].holder.Remote? {
      if Live(s, s.picked[k]) {
        BeginRemoteInv(s, k);
      } else {
        LatePickupKeepsInvIff(s, k);
      }
    }
  }

  lemma EndRemoteIff(s: State, k: nat, raised: bool)
    requires Inv(s)
    ensures Inv(EndRemote(s, k, raised)) <==> (k < |s.running| ==> MayEnd(s, s.running[k], raised))
  {
    if k < |s.running| && s.running[k].holder.Remote? {
      if Live(s, s.running[k]) {
        EndRemoteInv(s, k, raised);
      } else {
        LateReportKeepsInvIff(s, k, raised);
      }
    }
  }

  lemma AssignIff(s: State, x: JobId, w: WorkerId)
    requires Inv(s)
    ensures Inv(Assign(s, x, w)) <==> (CanAssign(s, x, w) ==> FreeFor(s, x, w))
  {
    if CanAssign(s, x, w) {
      AssignKeepsInvIff(s, x, w);
    }
  }

  /** The steps that always keep the invariant. */
  lemma PlainStepInv(s: State, op: Op)
    requires Inv(s)
    requires op.DoTakeLocal? || op.DoBeginLocal? || op.DoEndLocal? || op.DoFetch? || op.DoCancel? || op.DoSetPriority?
             || op.DoHeartbeat? || op.DoPause? || op.DoResume? || op.DoSweep?
    ensures Inv(Step(s, op))
  {
    match op
    case DoTakeLocal => TakeLocalInv(s);
    case DoBeginLocal(k) => BeginLocalInv(s, k);
    case DoEndLocal(k, raised) => EndLocalInv(s, k, raised);
    case DoFetch(w) => FetchInv(s, w);
    case DoCancel(j) => CancelInv(s, j);
    case DoSetPriority(j, priority) => PriorityInv(s, j, priority);
    case DoHeartbeat(w, now) => HeartbeatInv(s, w, now);
    case DoPause(w) => StatusInv(s, w, Suspended);
    case DoResume(w) => StatusInv(s, w, Active);
    case DoSweep(now, timeout) => SweepInv(s, s.order, now, timeout);
  }

  /** The steps that forget nodes, jobs or entries. */
  lemma ForgettingStepIff(s: State, op: Op)
    requires Inv(s)
    requires op.DoRegister? || op.DoUnregister? || op.DoClearJobs? || op.DoDropWorkers? || op.DoClearQueue?
    ensures Inv(Step(s, op)) <==> Harmless(s, op)
  {
    match op
    case DoRegister(w, capabilities, now) => RegisterKeepsInvIff(s, w, capabilities, now);
    case DoUnregister(w) => UnregisterKeepsInvIff(s, w);
    case DoClearJobs => ClearJobsKeepsInvIff(s);
    case DoDropWorkers => DropWorkersKeepsInvIff(s);
    case DoClearQueue => ClearQueueKeepsInvIff(s);
  }

  /** Every step of the system keeps the invariant exactly when it is harmless. */
  lemma StepInvIff(s: State, op: Op)
    requires Inv(s)
    ensures Inv(Step(s, op)) <==> Harmless(s, op)
  {
    match op
    case DoSubmit(j, spec, c) => SubmitKeepsInvIff(s, j, NewJob(spec, c));
    case DoAssign(j, w) => AssignIff(s, j, w);
    case DoBeginRemote(k) => BeginRemoteIff(s, k);
    case DoEndRemote(k, raised) => EndRemoteIff(s, k, raised);
    case DoReport(w, j, status) => ReportKeepsInvIff(s, w, j, status);
    case _ =>
      if op.DoRegister? || op.DoUnregister? || op.DoClearJobs? || op.DoDropWorkers? || op.DoClearQueue? {
        ForgettingStepIff(s, op);
      } else {
        PlainStepInv(s, op);
      }
  }

  lemma {:induction false} RunInv(s: State, ops: seq<Op>)
    requires Inv(s) && HarmlessRun(s, ops)
    ensures Inv(Run(s, ops))
    decreases |ops|
  {
    if ops != [] {
      StepInvIff(s, ops[0]);
      RunInv(Step(s, ops[0]), ops[1..]);
    }
  }
}
