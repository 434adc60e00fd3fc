/** The guarantees of the job protocol over whole runs. */
module JobTheorems {
  import opened Prelude
  import opened Tallies
  import opened JobProtocol
  import opened JobBudget
  import opened JobPlaces
  import opened JobSteps

  // ---------------------------------------------------------------- exactly one place

  lemma {:induction false} CountBoundDistinct(s: seq<JobId>)
    requires forall j | j in s :: Sum(s, IsId(j)) <= 1
    ensures Distinct(s)
  {
    forall a, b | 0 <= a < b < |s| ensures s[a] != s[b] {
      SumWithout(s, a, IsId(s[a]));
      SumAtLeast(Without(s, a), b - 1, IsId(s[a]));
    }
  }

  lemma InitialInv()
    ensures Inv(InitialState)
  {
  }

  /**
   Over every run of harmless steps, each submitted job is in exactly one place or finished; each node's
   queue is a duplicate-free part of the jobs it holds, a held job is queued there or in that
   worker's hands, and an OFFLINE node is empty.
   */
  lemma ExactlyOnePlace(ops: seq<Op>)
    requires HarmlessRun(InitialState, ops)
    ensures var s := Run(InitialState, ops);
      && (forall j | j in s.jobs :: Places(s, j) == 1 || (Places(s, j) == 0 && Terminal(s.jobs[j].status)))
      && (forall w | w in s.nodes :: Distinct(s.nodes[w].queue) && Distinct(s.nodes[w].held))
      && (forall w, j | w in s.nodes && j in s.nodes[w].queue :: j in s.nodes[w].held)
      && (forall w, j | w in s.nodes && j in s.nodes[w].held :: OnNode(s, w, j) == 1)
      && (forall w | w in s.nodes && s.nodes[w].status == Offline :: s.nodes[w].queue == [] && s.nodes[w].held == [])
  {
    InitialInv();
    RunInv(InitialState, ops);
    var s := Run(InitialState, ops);
    forall j | j in s.jobs ensures Places(s, j) == 1 || (Places(s, j) == 0 && Terminal(s.jobs[j].status)) {
      assert JobInv(s, j);
    }
    forall w | w in s.nodes
      ensures Distinct(s.nodes[w].queue) && Distinct(s.nodes[w].held)
      ensures forall j | j in s.nodes[w].queue :: j in s.nodes[w].held
      ensures forall j | j in s.nodes[w].held :: OnNode(s, w, j) == 1
      ensures s.nodes[w].status == Offline ==> s.nodes[w].queue == [] && s.nodes[w].held == []
    {
      assert NodeInv(s, w);
      CountBoundDistinct(s.nodes[w].queue);
      assert s.nodes[w].queue != [] ==> s.nodes[w].held != [] by {
        assert forall j | j in s.nodes[w].queue :: j in s.nodes[w].held;
        assert s.nodes[w].queue != [] ==> s.nodes[w].queue[0] in s.nodes[w].queue;
      }
    }
  }

  // ---------------------------------------------------------------- cancellation

  /** `j` is cancelled and its target has started as often as `starts`. */
  ghost predicate Shut(s: State, j: JobId, starts: multiset<JobId>) {
    j in s.jobs && s.jobs[j].cancelled && s.starts[j] == starts[j]
  }

  lemma ReportShut(s: State, w: WorkerId, x: JobId, status: JobStatus, j: JobId, starts: multiset<JobId>)
    requires WF(s) && Shut(s, j, starts)
    ensures Shut(Report(s, w, x, status), j, starts)
  {
  }

  lemma {:induction false} RequeueShut(s: State, ids: seq<JobId>, j: JobId, starts: multiset<JobId>)
    requires WF(s) && AllKnown(s.jobs, ids) && Shut(s, j, starts)
    ensures Shut(Requeue(s, ids), j, starts)
    decreases |ids|
  {
    if ids != [] {
      var x := ids[0];
      var s1 := SetJob(s, x, s.jobs[x].(status := Queued, workerId := None));
      RequeueShut(PutCentral(s1, x).(recoveries := s.recoveries + multiset{x}), ids[1..], j, starts);
    }
  }

  lemma {:induction false} SweepShut(s: State, ws: seq<WorkerId>, now: real, timeout: real, j: JobId, starts: multiset<JobId>)
    requires WF(s) && Shut(s, j, starts)
    ensures Shut(SweepFrom(s, ws, now, timeout), j, starts)
    decreases |ws|
  {
    if ws != [] {
      var w := ws[0];
      if w in s.nodes {
        RequeueShut(SetNode(s, w, Evacuated(s.nodes[w])), s.nodes[w].held, j, starts);
      }
      SweepShut(SweepNode(s, w, now, timeout), ws[1..], now, timeout, j, starts);
    }
  }

  lemma SubmitShut(s: State, x: JobId, rec: JobRec, j: JobId, starts: multiset<JobId>)
    requires WF(s) && Shut(s, j, starts)
    ensures Shut(Submit(s, x, rec), j, starts)
  {
  }

  lemma BeginRemoteShut(s: State, k: nat, j: JobId, starts: multiset<JobId>)
    requires WF(s) && Shut(s, j, starts)
    ensures Shut(BeginRemote(s, k), j, starts)
  {
    if k < |s.picked| && s.picked[k].holder.Remote? {
      var h := s.picked[k];
      ReportShut(PutDown(s, k), h.holder.worker, h.job, Running, j, starts);
      ReportShut(Report(PutDown(s, k), h.holder.worker, h.job, Running), h.holder.worker, h.job, Cancelled, j, starts);
    }
  }

  lemma BeginLocalShut(s: State, k: nat, j: JobId, starts: multiset<JobId>)
    requires WF(s) && Shut(s, j, starts)
    ensures Shut(BeginLocal(s, k), j, starts)
  {
  }

  lemma EndLocalShut(s: State, k: nat, raised: bool, j: JobId, starts: multiset<JobId>)
    requires WF(s) && Shut(s, j, starts)
    ensures Shut(EndLocal(s, k, raised), j, starts)
  {
  }

  lemma HandsShut(s: State, op: Op, j: JobId, starts: multiset<JobId>)
    requires WF(s) && Shut(s, j, starts)
    requires op.DoTakeLocal? || op.DoFetch? || op.DoCancel? || op.DoSetPriority? || op.DoAssign? || op.DoClearQueue?
    ensures Shut(Step(s, op), j, starts)
  {
  }

  lemma NodesShut(s: State, op: Op, j: JobId, starts: multiset<JobId>)
    requires WF(s) && Shut(s, j, starts)
    requires op.DoRegister? || op.DoUnregister? || op.DoHeartbeat? || op.DoPause? || op.DoResume? || op.DoClearJobs? || op.DoDropWorkers?
    ensures Shut(Step(s, op), j, starts)
  {
  }

  lemma StepShut(s: State, op: Op, j: JobId, starts: multiset<JobId>)
    requires WF(s) && Shut(s, j, starts)
    ensures Shut(Step(s, op), j, starts)
  {
    match op
    case DoSubmit(x, spec, c) => SubmitShut(s, x, NewJob(spec, c), j, starts);
    case DoBeginLocal(k) => BeginLocalShut(s, k, j, starts);
    case DoEndLocal(k, raised) => EndLocalShut(s, k, raised, j, starts);
    case DoBeginRemote(k) => BeginRemoteShut(s, k, j, starts);
    case DoEndRemote(k, raised) =>
      if k < |s.running| && s.running[k].holder.Remote? {
        ReportShut(Stop(s, k), s.running[k].holder.worker, s.running[k].job, if raised then Failed else Completed, j, starts);
      }
    case DoReport(w, x, status) => ReportShut(s, w, x, status, j, starts);
    case DoSweep(now, timeout) => SweepShut(s, s.order, now, timeout, j, starts);
    case _ =>
      if op.DoTakeLocal? || op.DoFetch? || op.DoCancel? || op.DoSetPriority? || op.DoAssign? || op.DoClearQueue? {
        HandsShut(s, op, j, starts);
      } else {
        NodesShut(s, op, j, starts);
      }
  }

  /** Over every run whatsoever, the flag of a cancelled job stays set and its target starts no more. */
  lemma {:induction false} CancelledNeverStarts(s: State, ops: seq<Op>, j: JobId)
    requires WF(s) && j in s.jobs && s.jobs[j].cancelled
    ensures var r := Run(s, ops);
      j in r.jobs && r.jobs[j].cancelled && r.starts[j] == s.starts[j]
    decreases |ops|
  {
    if ops != [] {
      StepShut(s, ops[0], j, s.starts);
      CancelledNeverStarts(Step(s, ops[0]), ops[1..], j);
    }
  }

  /** `j` has not begun: no local run, and no remote run that may still report. */
  ghost predicate NotBegun(s: State, j: JobId) {
    forall h | h in s.running && h.job == j :: h.holder.Remote? && !Live(s, h)
  }

  /** A cancelled job that can only end CANCELLED. */
  ghost predicate Doomed(s: State, j: JobId) {
    && j in s.jobs && s.jobs[j].cancelled && NotBegun(s, j)
    && s.jobs[j].status != Completed && s.jobs[j].status != Failed
  }

  /** Leaving `j`'s record and every node's hold on it alone, and starting no `j`, keeps it doomed. */
  lemma DoomedFrame(s: State, r: State, j: JobId)
    requires Doomed(s, j) && j in r.jobs && r.jobs[j].cancelled
    requires r.jobs[j].status != Completed && r.jobs[j].status != Failed
    requires forall w | w in r.nodes && j in r.nodes[w].held :: w in s.nodes && j in s.nodes[w].held
    requires forall h | h in r.running && h.job == j :: h in s.running
    ensures Doomed(r, j)
  {
  }

  lemma {:induction false} RequeueKeepsDoomed(s: State, ids: seq<JobId>, j: JobId)
    requires WF(s) && AllKnown(s.jobs, ids) && Doomed(s, j)
    ensures Doomed(Requeue(s, ids), j)
    decreases |ids|
  {
    if ids != [] {
      var x := ids[0];
      var s1 := SetJob(s, x, s.jobs[x].(status := Queued, workerId := None));
      var r := PutCentral(s1, x).(recoveries := s.recoveries + multiset{x});
      DoomedFrame(s, r, j);
      RequeueKeepsDoomed(r, ids[1..], j);
    }
  }

  lemma {:induction false} SweepKeepsDoomed(s: State, ws: seq<WorkerId>, now: real, timeout: real, j: JobId)
    requires WF(s) && Doomed(s, j)
    ensures Doomed(SweepFrom(s, ws, now, timeout), j)
    decreases |ws|
  {
    if ws != [] {
      var w := ws[0];
      if w in s.nodes {
        DoomedFrame(s, SetNode(s, w, Evacuated(s.nodes[w])), j);
        RequeueKeepsDoomed(SetNode(s, w, Evacuated(s.nodes[w])), s.nodes[w].held, j);
        DoomedFrame(s, SetNode(s, w, s.nodes[w].(status := Suspended)), j);
      }
      SweepKeepsDoomed(SweepNode(s, w, now, timeout), ws[1..], now, timeout, j);
    }
  }

  /** A report that is heard and final: the job completed, or failed for the last time. */
  predicate Concludes(s: State, w: WorkerId, j: JobId, status: JobStatus)
    requires WF(s)
  {
    Heard(s, w, j) && (status == Completed || (status == Failed && !RetriesLeft(s.jobs[j])))
  }

  /** The step does not conclude `j` by a report: not directly, nor by a runner that had begun it and lost it. */
  predicate LeavesOutcome(s: State, op: Op, j: JobId)
    requires WF(s)
  {
    match op
    case DoReport(w, x, status) => x == j ==> !Concludes(s, w, j, status)
    case DoEndRemote(k, raised) =>
      k < |s.running| && s.running[k].job == j && s.running[k].holder.Remote? ==>
        !Concludes(s, s.running[k].holder.worker, j, if raised then Failed else Completed)
    case _ => true
  }

  predicate OutcomeLeft(s: State, ops: seq<Op>, j: JobId)
    requires WF(s)
    decreases |ops|
  {
    ops == [] || (LeavesOutcome(s, ops[0], j) && OutcomeLeft(Step(s, ops[0]), ops[1..], j))
  }

  lemma NoHand(s: State, h: Hand)
    requires InHands(s, h) == 0
    ensures h !in s.running
  {
    SumZero(s.running, IsHand(h));
    assert IsHand(h)(h) == 1;
  }

  /** A worker may come to hold the job as long as no hand of it is on the job from before. */
  lemma HeldFrame(s: State, r: State, w: WorkerId, x: JobId, j: JobId)
    requires Doomed(s, j) && j in r.jobs && r.jobs[j].cancelled
    requires r.jobs[j].status != Completed && r.jobs[j].status != Failed
    requires forall v | v in r.nodes && j in r.nodes[v].held && v != w :: v in s.nodes && j in s.nodes[v].held
    requires x != j && w in r.nodes && j in r.nodes[w].held ==> w in s.nodes && j in s.nodes[w].held
    requires x == j ==> Hand(Remote(w), x) !in s.running
    requires r.running == s.running
    ensures Doomed(r, j)
  {
    forall h | h in r.running && h.job == j ensures h.holder.Remote? && !Live(r, h) {
      assert h in s.running && !Live(s, h);
      assert h.holder == Remote(w) ==> h == Hand(Remote(w), j);
    }
  }

  lemma PlaceOnKeepsDoomed(s: State, x: JobId, w: WorkerId, j: JobId)
    requires WF(s) && Doomed(s, j) && x in s.jobs && w in s.nodes && InHands(s, Hand(Remote(w), x)) == 0
    ensures Doomed(PlaceOn(s, x, w), j)
  {
    NoHand(s, Hand(Remote(w), x));
    HeldFrame(s, PlaceOn(s, x, w), w, x, j);
  }

  lemma RetryOnKeepsDoomed(s: State, x: JobId, w: WorkerId, j: JobId)
    requires WF(s) && Doomed(s, j) && x in s.jobs && w in s.nodes
    requires x == j ==> InHands(s, Hand(Remote(w), x)) == 0
    ensures Doomed(RetryOn(s, w, x), j)
  {
    if x == j {
      NoHand(s, Hand(Remote(w), x));
    }
    HeldFrame(s, RetryOn(s, w, x), w, x, j);
  }

  lemma SetJobKeepsDoomed(s: State, x: JobId, status: JobStatus, j: JobId)
    requires WF(s) && Doomed(s, j) && x in s.jobs && (x == j ==> status != Completed && status != Failed)
    ensures Doomed(SetJob(s, x, s.jobs[x].(status := status)), j)
  {
  }

  lemma SettleOnKeepsDoomed(s: State, w: WorkerId, x: JobId, status: JobStatus, j: JobId)
    requires WF(s) && Doomed(s, j) && x in s.jobs && w in s.nodes && (x == j ==> status != Completed && status != Failed)
    ensures Doomed(SettleOn(s, w, x, status), j)
  {
    DoomedFrame(s, SettleOn(s, w, x, status), j);
  }

  lemma ReportKeepsDoomed(s: State, w: WorkerId, x: JobId, status: JobStatus, j: JobId)
    requires WF(s) && Doomed(s, j) && (x == j ==> MayReport(s, w, x, status) && !Concludes(s, w, j, status))
    ensures Doomed(Report(s, w, x, status), j)
  {
    if Heard(s, w, x) {
      ReportDoes(s, w, x, status);
      if !Terminal(status) {
        SetJobKeepsDoomed(s, x, status, j);
      } else if status == Failed && RetriesLeft(s.jobs[x]) {
        RetryOnKeepsDoomed(s, x, w, j);
      } else {
        SettleOnKeepsDoomed(s, w, x, status, j);
      }
    }
  }

  lemma ReportConcludes(s: State, w: WorkerId, j: JobId, status: JobStatus)
    requires WF(s) && Concludes(s, w, j, status)
    ensures j in Report(s, w, j, status).jobs && Report(s, w, j, status).jobs[j].status == status
  {
  }

  lemma StopKeepsDoomed(s: State, k: nat, j: JobId)
    requires WF(s) && Doomed(s, j) && k < |s.running|
    ensures Doomed(Stop(s, k), j)
  {
    DoomedFrame(s, Stop(s, k), j);
  }

  /** A runner that lost the cancelled job may still report that it failed, if that asks for a retry that is harmless. */
  lemma EndRemoteKeepsDoomed(s: State, k: nat, raised: bool, j: JobId)
    requires WF(s) && Doomed(s, j) && Harmless(s, DoEndRemote(k, raised)) && LeavesOutcome(s, DoEndRemote(k, raised), j)
    ensures Doomed(EndRemote(s, k, raised), j)
  {
    if k < |s.running| && s.running[k].holder.Remote? {
      var h := s.running[k];
      assert h in s.running;
      StopKeepsDoomed(s, k, j);
      EndRemoteReports(s, k, raised);
      StopHands(s, k, h);
      StalePlaces(s, k);
      ReportKeepsDoomed(Stop(s, k), h.holder.worker, h.job, if raised then Failed else Completed, j);
    }
  }

  lemma StalePlaces(s: State, k: nat)
    requires WF(s) && k < |s.running| && s.running[k].holder.Remote?
    ensures Places(Stop(s, k), s.running[k].job) == Places(s, s.running[k].job)
  {
    StopHands(s, k, Hand(Local, s.running[k].job));
  }

  lemma PickUpSteps(s: State, k: nat)
    requires WF(s) && k < |s.picked| && s.picked[k].holder.Remote? && Heard(s, s.picked[k].holder.worker, s.picked[k].job)
    ensures var h := s.picked[k];
      BeginRemote(s, k) ==
        if s.jobs[h.job].cancelled then SettleOn(PutDown(s, k), h.holder.worker, h.job, Cancelled)
        else SetJob(StartTarget(PutDown(s, k), h), h.job, s.jobs[h.job].(status := Running))
  {
    var h := s.picked[k];
    if s.jobs[h.job].cancelled {
      SettleAfterRunning(PutDown(s, k), h.holder.worker, h.job);
    } else {
      BeginRemoteRuns(s, k);
    }
  }

  lemma BeginRemoteKeepsDoomed(s: State, k: nat, j: JobId)
    requires WF(s) && Doomed(s, j)
    ensures Doomed(BeginRemote(s, k), j)
  {
    if k < |s.picked| && s.picked[k].holder.Remote? {
      if Heard(s, s.picked[k].holder.worker, s.picked[k].job) {
        PickUpSteps(s, k);
      } else {
        UnheardPickup(s, k);
      }
      DoomedFrame(s, BeginRemote(s, k), j);
    }
  }

  lemma SubmitKeepsDoomed(s: State, x: JobId, rec: JobRec, j: JobId)
    requires WF(s) && Doomed(s, j) && MaySubmit(s, x, rec)
    ensures Doomed(Submit(s, x, rec), j)
  {
    var s1 := Admit(s, x, if x in s.jobs then s.jobs[x] else rec);
    DoomedFrame(s, s1, j);
    AdmitCounts(s, x, if x in s.jobs then s.jobs[x] else rec);
    UnknownFree(s, x, rec);
    match Route(s1.nodes, s1.order, s1.jobs[x]) {
      case Some(w) => PlaceOnKeepsDoomed(s1, x, w, j);
      case None => DoomedFrame(s1, PutCentral(s1, x), j);
    }
  }

  lemma AssignKeepsDoomed(s: State, x: JobId, w: WorkerId, j: JobId)
    requires WF(s) && Doomed(s, j) && (CanAssign(s, x, w) ==> FreeFor(s, x, w))
    ensures Doomed(Assign(s, x, w), j)
  {
    if CanAssign(s, x, w) {
      PlaceOnKeepsDoomed(s, x, w, j);
      DoomedFrame(PlaceOn(s, x, w), Assign(s, x, w), j);
    }
  }

  lemma BeginLocalKeepsDoomed(s: State, k: nat, j: JobId)
    requires WF(s) && Doomed(s, j)
    ensures Doomed(BeginLocal(s, k), j)
  {
    DoomedFrame(s, BeginLocal(s, k), j);
  }

  lemma EndLocalKeepsDoomed(s: State, k: nat, raised: bool, j: JobId)
    requires WF(s) && Doomed(s, j)
    ensures Doomed(EndLocal(s, k, raised), j)
  {
    DoomedFrame(s, EndLocal(s, k, raised), j);
  }

  lemma StepKeepsDoomed(s: State, op: Op, j: JobId)
    requires WF(s) && Doomed(s, j) && Harmless(s, op) && LeavesOutcome(s, op, j)
    ensures Doomed(Step(s, op), j)
  {
    match op
    case DoSubmit(x, spec, c) => SubmitKeepsDoomed(s, x, NewJob(spec, c), j);
    case DoAssign(x, w) => AssignKeepsDoomed(s, x, w, j);
    case DoBeginLocal(k) => BeginLocalKeepsDoomed(s, k, j);
    case DoEndLocal(k, raised) => EndLocalKeepsDoomed(s, k, raised, j);
    case DoBeginRemote(k) => BeginRemoteKeepsDoomed(s, k, j);
    case DoEndRemote(k, raised) => EndRemoteKeepsDoomed(s, k, raised, j);
    case DoSweep(now, timeout) => SweepKeepsDoomed(s, s.order, now, timeout, j);
    case DoReport(w, x, status) => ReportKeepsDoomed(s, w, x, status, j);
    case _ =>
      if op.DoTakeLocal? || op.DoFetch? || op.DoCancel? || op.DoSetPriority? || op.DoClearQueue? || op.DoClearJobs? {
        RecordsKeepDoomed(s, op, j);
      } else {
        NodesKeepDoomed(s, op, j);
      }
  }

  lemma RecordsKeepDoomed(s: State, op: Op, j: JobId)
    requires WF(s) && Doomed(s, j)
    requires op.DoTakeLocal? || op.DoFetch? || op.DoCancel? || op.DoSetPriority? || op.DoClearQueue? || op.DoClearJobs?
    ensures Doomed(Step(s, op), j)
  {
    DoomedFrame(s, Step(s, op), j);
  }

  lemma NodesKeepDoomed(s: State, op: Op, j: JobId)
    requires WF(s) && Doomed(s, j)
    requires op.DoRegister? || op.DoUnregister? || op.DoHeartbeat? || op.DoPause? || op.DoResume? || op.DoDropWorkers?
    ensures Doomed(Step(s, op), j)
  {
    DoomedFrame(s, Step(s, op), j);
  }

  /** A harmless step keeps a cancelled job doomed exactly when it does not conclude it by a report. */
  lemma StepKeepsDoomedIff(s: State, op: Op, j: JobId)
    requires WF(s) && Doomed(s, j) && Harmless(s, op)
    ensures Doomed(Step(s, op), j) <==> LeavesOutcome(s, op, j)
  {
    if LeavesOutcome(s, op, j) {
      StepKeepsDoomed(s, op, j);
    } else if op.DoReport? {
      ReportConcludes(s, op.worker, j, op.status);
    } else {
      assert op.DoEndRemote?;
      EndRemoteReports(s, op.hand, op.raised);
      ReportConcludes(Stop(s, op.hand), s.running[op.hand].holder.worker, j, if op.raised then Failed else Completed);
    }
  }

  lemma {:induction false} RunKeepsDoomed(s: State, ops: seq<Op>, j: JobId)
    requires WF(s) && Doomed(s, j) && HarmlessRun(s, ops) && OutcomeLeft(s, ops, j)
    ensures Doomed(Run(s, ops), j)
    decreases |ops|
  {
    if ops != [] {
      StepKeepsDoomed(s, ops[0], j);
      RunKeepsDoomed(Step(s, ops[0]), ops[1..], j);
    }
  }

  /** Whoever picks up a cancelled job finishes it as CANCELLED. */
  lemma LocalPickupEndsCancelled(s: State, k: nat, j: JobId)
    requires Inv(s) && k < |s.picked| && s.picked[k] == Hand(Local, j) && s.jobs[j].cancelled
    ensures BeginLocal(s, k).jobs[j].status == Cancelled && Places(BeginLocal(s, k), j) == 0
  {
    BeginLocalInv(s, k);
  }

  lemma RemotePickupRecord(s: State, k: nat)
    requires WF(s) && k < |s.picked| && Live(s, s.picked[k]) && s.jobs[s.picked[k].job].cancelled && s.picked[k].job in s.registry
    ensures var r := BeginRemote(s, k); s.picked[k].job in r.jobs && r.jobs[s.picked[k].job].status == Cancelled
  {
    var h := s.picked[k];
    SettleAfterRunning(PutDown(s, k), h.holder.worker, h.job);
  }

  lemma RemotePickupEndsCancelled(s: State, k: nat, j: JobId)
    requires Inv(s) && k < |s.picked| && s.picked[k].job == j && Live(s, s.picked[k]) && s.jobs[j].cancelled
    ensures var r := BeginRemote(s, k); j in r.jobs && r.jobs[j].status == Cancelled && Places(r, j) == 0
  {
    HeldIsTracked(s, s.picked[k].holder.worker, j);
    RemotePickupRecord(s, k);
    BeginRemoteInv(s, k);
  }

  /** A state some run of harmless steps leads to. */
  ghost predicate Reached(s: State) {
    exists ops :: HarmlessRun(InitialState, ops) && s == Run(InitialState, ops)
  }

  lemma ReachedInv(s: State)
    requires Reached(s)
    ensures Inv(s)
  {
    var ops :| HarmlessRun(InitialState, ops) && s == Run(InitialState, ops);
    InitialInv();
    RunInv(InitialState, ops);
  }

  /**
   A job cancelled before it began: after any run of harmless steps, none of which concludes it by a
   report regardless, it has not started again, it is neither COMPLETED nor FAILED, and it is CANCELLED
   once it is in no place any more.
   */
  lemma CancelledEndsCancelled(s: State, ops: seq<Op>, j: JobId, r: State)
    requires Reached(s) && WF(s) && CancelSucceeds(s, j) && NotBegun(s, j)
    requires HarmlessRun(Cancel(s, j), ops) && OutcomeLeft(Cancel(s, j), ops, j) && r == Run(Cancel(s, j), ops)
    ensures Inv(r) && j in r.jobs && r.jobs[j].cancelled && r.starts[j] == s.starts[j]
    ensures r.jobs[j].status != Completed && r.jobs[j].status != Failed
    ensures Places(r, j) == 0 ==> r.jobs[j].status == Cancelled
  {
    ReachedInv(s);
    CancelInv(s, j);
    RunInv(Cancel(s, j), ops);
    CancelledNeverStarts(Cancel(s, j), ops, j);
    RunKeepsDoomed(Cancel(s, j), ops, j);
    assert JobInv(r, j);
  }

  // ---------------------------------------------------------------- the central queue's order

  ghost predicate Sorted(queue: seq<Item>) {
    forall a, b | 0 <= a < b < |queue| :: Before(queue[a], queue[b])
  }

  /** A new entry, stamped later than all others, keeps the queue strictly ordered. */
  lemma {:induction false} InsertSorted(queue: seq<Item>, item: Item)
    requires Sorted(queue) && forall x | x in queue :: x.stamp < item.stamp
    ensures Sorted(Insert(queue, item))
  {
    if queue != [] && !Before(item, queue[0]) {
      InsertSorted(queue[1..], item);
      var rest := Insert(queue[1..], item);
      forall b | 0 <= b < |rest| ensures Before(queue[0], rest[b]) {
        assert rest[b] in rest;
      }
    }
  }

  /** The queue is in strict order; entries carry their jobs' age and, for the jobs `kept`, their priority. */
  ghost predicate QueueInv(s: State, kept: set<JobId>) {
    && WF(s)
    && Sorted(s.central)
    && forall i | i in s.central ::
         && i.stamp <= s.stamp
         && i.createdAt == s.jobs[i.job].spec.createdAt
         && (i.job in kept ==> i.priority == s.jobs[i.job].spec.priority)
  }

  /** No step sets the priority of a job in `kept`. */
  ghost predicate KeepsPriority(ops: seq<Op>, kept: set<JobId>) {
    forall op | op in ops && op.DoSetPriority? :: op.job !in kept
  }

  /** Records may change as long as their specification stays. */
  ghost predicate SameSpecs(s: State, r: State) {
    forall j | j in s.jobs :: j in r.jobs && r.jobs[j].spec == s.jobs[j].spec
  }

  lemma QueueFrame(s: State, r: State, kept: set<JobId>)
    requires QueueInv(s, kept) && WF(r) && SameSpecs(s, r) && r.central == s.central && r.stamp == s.stamp
    ensures QueueInv(r, kept)
  {
  }

  lemma PutCentralQueue(s: State, x: JobId, kept: set<JobId>)
    requires QueueInv(s, kept) && x in s.jobs
    ensures QueueInv(PutCentral(s, x), kept)
  {
    InsertSorted(s.central, Item(s.jobs[x].spec.priority, s.jobs[x].spec.createdAt, s.stamp + 1, x));
  }

  lemma {:induction false} RequeueQueue(s: State, ids: seq<JobId>, kept: set<JobId>)
    requires QueueInv(s, kept) && AllKnown(s.jobs, ids)
    ensures QueueInv(Requeue(s, ids), kept)
    decreases |ids|
  {
    if ids != [] {
      var x := ids[0];
      var s1 := SetJob(s, x, s.jobs[x].(status := Queued, workerId := None));
      QueueFrame(s, s1, kept);
      PutCentralQueue(s1, x, kept);
      var r := PutCentral(s1, x).(recoveries := s.recoveries + multiset{x});
      QueueFrame(PutCentral(s1, x), r, kept);
      RequeueQueue(r, ids[1..], kept);
    }
  }

  lemma {:induction false} SweepQueue(s: State, ws: seq<WorkerId>, now: real, timeout: real, kept: set<JobId>)
    requires QueueInv(s, kept)
    ensures QueueInv(SweepFrom(s, ws, now, timeout), kept)
    decreases |ws|
  {
    if ws != [] {
      var w := ws[0];
      if w in s.nodes {
        var r := SetNode(s, w, Evacuated(s.nodes[w]));
        QueueFrame(s, r, kept);
        RequeueQueue(r, s.nodes[w].held, kept);
        QueueFrame(s, SetNode(s, w, s.nodes[w].(status := Suspended)), kept);
      }
      SweepQueue(SweepNode(s, w, now, timeout), ws[1..], now, timeout, kept);
    }
  }

  lemma SubmitQueue(s: State, x: JobId, rec: JobRec, kept: set<JobId>)
    requires QueueInv(s, kept)
    ensures QueueInv(Submit(s, x, rec), kept)
  {
    var s1 := Admit(s, x, if x in s.jobs then s.jobs[x] else rec);
    QueueFrame(s, s1, kept);
    match Route(s1.nodes, s1.order, s1.jobs[x]) {
      case Some(w) => QueueFrame(s1, PlaceOn(s1, x, w), kept);
      case None => PutCentralQueue(s1, x, kept);
    }
  }

  lemma BeginLocalQueue(s: State, k: nat, kept: set<JobId>)
    requires QueueInv(s, kept)
    ensures QueueInv(BeginLocal(s, k), kept)
  {
    QueueFrame(s, BeginLocal(s, k), kept);
  }

  lemma EndLocalQueue(s: State, k: nat, raised: bool, kept: set<JobId>)
    requires QueueInv(s, kept)
    ensures QueueInv(EndLocal(s, k, raised), kept)
  {
    if k < |s.running| && s.running[k].holder.Local? {
      var x := s.running[k].job;
      if raised && RetriesLeft(s.jobs[x]) {
        var s1 := SetJob(Stop(s, k), x, Requeued(s.jobs[x]));
        QueueFrame(s, s1, kept);
        PutCentralQueue(s1, x, kept);
      } else {
        QueueFrame(s, EndLocal(s, k, raised), kept);
      }
    }
  }

  lemma ReportQueue(s: State, w: WorkerId, x: JobId, status: JobStatus, kept: set<JobId>)
    requires QueueInv(s, kept)
    ensures QueueInv(Report(s, w, x, status), kept)
  {
    QueueFrame(s, Report(s, w, x, status), kept);
  }

  lemma BeginRemoteQueue(s: State, k: nat, kept: set<JobId>)
    requires QueueInv(s, kept)
    ensures QueueInv(BeginRemote(s, k), kept)
  {
    if k < |s.picked| && s.picked[k].holder.Remote? {
      var w, x := s.picked[k].holder.worker, s.picked[k].job;
      QueueFrame(s, PutDown(s, k), kept);
      ReportQueue(PutDown(s, k), w, x, Running, kept);
      var s2 := Report(PutDown(s, k), w, x, Running);
      ReportQueue(s2, w, x, Cancelled, kept);
      QueueFrame(s2, StartTarget(s2, s.picked[k]), kept);
    }
  }

  lemma EndRemoteQueue(s: State, k: nat, raised: bool, kept: set<JobId>)
    requires QueueInv(s, kept)
    ensures QueueInv(EndRemote(s, k, raised), kept)
  {
    if k < |s.running| && s.running[k].holder.Remote? {
      QueueFrame(s, Stop(s, k), kept);
      ReportQueue(Stop(s, k), s.running[k].holder.worker, s.running[k].job, if raised then Failed else Completed, kept);
    }
  }

  /** Steps that do not touch the central queue. */
  predicate OffQueue(op: Op) {
    || op.DoAssign? || op.DoFetch? || op.DoCancel? || op.DoRegister? || op.DoUnregister? || op.DoHeartbeat?
    || op.DoPause? || op.DoResume? || op.DoClearJobs? || op.DoDropWorkers?
  }

  lemma OffQueueStep(s: State, op: Op)
    requires WF(s) && OffQueue(op)
    ensures SameSpecs(s, Step(s, op)) && Step(s, op).central == s.central && Step(s, op).stamp == s.stamp
  {
  }

  lemma QueueShrinks(s: State, op: Op, kept: set<JobId>)
    requires QueueInv(s, kept) && (op.DoTakeLocal? || op.DoClearQueue?)
    ensures QueueInv(Step(s, op), kept)
  {
  }

  lemma PriorityQueue(s: State, x: JobId, priority: int, kept: set<JobId>)
    requires QueueInv(s, kept) && x !in kept
    ensures QueueInv(SetPriority(s, x, priority), kept)
  {
  }

  lemma StepQueue(s: State, op: Op, kept: set<JobId>)
    requires QueueInv(s, kept) && (op.DoSetPriority? ==> op.job !in kept)
    ensures QueueInv(Step(s, op), kept)
  {
    match op
    case DoSubmit(x, spec, c) => SubmitQueue(s, x, NewJob(spec, c), kept);
    case DoBeginLocal(k) => BeginLocalQueue(s, k, kept);
    case DoEndLocal(k, raised) => EndLocalQueue(s, k, raised, kept);
    case DoBeginRemote(k) => BeginRemoteQueue(s, k, kept);
    case DoEndRemote(k, raised) => EndRemoteQueue(s, k, raised, kept);
    case DoReport(w, x, status) => ReportQueue(s, w, x, status, kept);
    case DoSweep(now, timeout) => SweepQueue(s, s.order, now, timeout, kept);
    case DoSetPriority(x, priority) => PriorityQueue(s, x, priority, kept);
    case DoTakeLocal => QueueShrinks(s, op, kept);
    case DoClearQueue => QueueShrinks(s, op, kept);
    case _ =>
      OffQueueStep(s, op);
      QueueFrame(s, Step(s, op), kept);
  }

  lemma {:induction false} RunQueue(s: State, ops: seq<Op>, kept: set<JobId>)
    requires QueueInv(s, kept) && KeepsPriority(ops, kept)
    ensures QueueInv(Run(s, ops), kept)
    decreases |ops|
  {
    if ops != [] {
      StepQueue(s, ops[0], kept);
      RunQueue(Step(s, ops[0]), ops[1..], kept);
    }
  }

  lemma TakesHead(s: State)
    requires WF(s) && s.central != []
    ensures TakeLocal(s).picked == s.picked + [Hand(Local, s.central[0].job)] && s.central == [s.central[0]] + TakeLocal(s).central
  {
  }

  /**
   After every run, a local thread takes a job whose entry no other entry beats: none has a higher
   priority, none of the same priority is older, none of the same priority and age was put earlier.
   Entries carry the jobs' own age, and their own priority as long as it was never set.
   */
  lemma TakesTheFirst(ops: seq<Op>, i: Item, kept: set<JobId>)
    requires i in Run(InitialState, ops).central && KeepsPriority(ops, kept)
    ensures var s := Run(InitialState, ops);
      var first := s.central[0];
      && TakeLocal(s).picked == s.picked + [Hand(Local, first.job)]
      && first.job in s.jobs && i.job in s.jobs
      && var mine, other := s.jobs[first.job].spec, s.jobs[i.job].spec;
         && (first.priority > i.priority || (first.priority == i.priority && mine.createdAt <= other.createdAt))
         && (first.priority == i.priority && mine.createdAt == other.createdAt ==> first.stamp <= i.stamp)
         && i.stamp <= s.stamp && s.central == [first] + TakeLocal(s).central
         && (first.job in kept ==> first.priority == mine.priority)
         && (i.job in kept ==> i.priority == other.priority)
  {
    RunQueue(InitialState, ops, kept);
    var s := Run(InitialState, ops);
    TakesHead(s);
    var k :| 0 <= k < |s.central| && s.central[k] == i;
    assert s.central[0] in s.central;
    assert k > 0 ==> Before(s.central[0], s.central[k]);
  }

  /** Setting the priority of a job already queued moves no entry: the other job is still taken first. */
  lemma LatePriorityIgnored(a: JobId, b: JobId)
    requires a != b
    ensures var s := SetPriority(Step(Step(InitialState, DoSubmit(a, Plain(20), false)), DoSubmit(b, Plain(10), false)), b, 30);
      && a in s.jobs && b in s.jobs && s.jobs[b].spec.priority > s.jobs[a].spec.priority
      && TakeLocal(s).picked == [Hand(Local, a)]
  {
    SubmitPlain(InitialState, a, 20);
    var s1 := Step(InitialState, DoSubmit(a, Plain(20), false));
    SubmitPlain(s1, b, 10);
    assert s1.central[1..] == [];
  }

  /** Without workers a job goes into the central queue. */
  lemma SubmitPlain(s: State, j: JobId, priority: int)
    requires WF(s) && s.order == [] && j !in s.jobs
    ensures var r := Step(s, DoSubmit(j, Plain(priority), false));
      && r.central == Insert(s.central, Item(priority, 0.0, s.stamp + 1, j)) && r.stamp == s.stamp + 1
      && r.jobs.Keys == s.jobs.Keys + {j} && r.jobs[j].spec == Plain(priority)
      && (forall i | i in s.jobs :: r.jobs[i] == s.jobs[i])
      && r.order == [] && r.picked == s.picked
  {
  }

  function Plain(priority: int): JobSpec {
    JobSpec(priority, 0.0, 0, None, Callable, None)
  }

  // ---------------------------------------------------------------- reachable states

  lemma {:induction false} RunExtended(s: State, ops: seq<Op>, op: Op)
    requires WF(s) && HarmlessRun(s, ops) && Harmless(Run(s, ops), op)
    ensures HarmlessRun(s, ops + [op]) && Run(s, ops + [op]) == Step(Run(s, ops), op)
    decreases |ops|
  {
    if ops == [] {
      assert [op][1..] == [];
    } else {
      assert (ops + [op])[1..] == ops[1..] + [op];
      RunExtended(Step(s, ops[0]), ops[1..], op);
    }
  }

  /** The reachable states are closed under harmless steps. */
  lemma ReachedStep(s: State, op: Op)
    requires Reached(s) && WF(s) && Harmless(s, op)
    ensures Reached(Step(s, op))
  {
    var ops :| HarmlessRun(InitialState, ops) && s == Run(InitialState, ops);
    RunExtended(InitialState, ops, op);
    ReachedBy(Step(s, op), ops + [op]);
  }

  lemma ReachedBy(s: State, ops: seq<Op>)
    requires HarmlessRun(InitialState, ops) && s == Run(InitialState, ops)
    ensures Reached(s)
  {
  }
}
