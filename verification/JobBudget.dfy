/**
 How often a job's target can run, over every run of the system: late reports, lost nodes,
 re-registrations, manual assignments and re-submissions included.
 */
module JobBudget {
  import opened Prelude
  import opened Tallies
  import opened JobProtocol

  // ---------------------------------------------------------------- counting copies

  function IsItemOf(j: JobId): Item -> nat {
    (i: Item) => if i.job == j then 1 else 0
  }

  function IsHandOf(j: JobId): Hand -> nat {
    (h: Hand) => if h.job == j then 1 else 0
  }

  function IsId(j: JobId): JobId -> nat {
    (i: JobId) => if i == j then 1 else 0
  }

  /** How many copies of `j` wait in each worker's queue. */
  function QueuedOn(nodes: map<WorkerId, Node>, j: JobId): WorkerId -> nat {
    (w: WorkerId) => if w in nodes then Sum(nodes[w].queue, IsId(j)) else 0
  }

  /** Copies of `j` that may still be started: queued centrally, queued on a node, or picked up. */
  function Copies(s: State, j: JobId): nat {
    Sum(s.central, IsItemOf(j)) + Sum(s.order, QueuedOn(s.nodes, j)) + Sum(s.picked, IsHandOf(j))
  }

  function Retried(s: State, j: JobId): nat {
    if j in s.jobs then s.jobs[j].retryCount else 0
  }

  /** Starts so far and starts still possible, against what was granted. */
  ghost predicate WithinBudget(s: State, j: JobId) {
    s.starts[j] + Copies(s, j) <= s.placements[j] + Retried(s, j) + s.recoveries[j]
  }

  function RetryLimit(rec: JobRec): nat {
    if rec.spec.retries > 0 then rec.spec.retries else 0
  }

  ghost predicate RetriesBounded(s: State, j: JobId) {
    j in s.jobs ==> s.jobs[j].retryCount <= RetryLimit(s.jobs[j])
  }

  // ---------------------------------------------------------------- how each piece moves the count

  lemma {:induction false} InsertSum(queue: seq<Item>, item: Item, f: Item -> nat)
    ensures Sum(Insert(queue, item), f) == Sum(queue, f) + f(item)
  {
    if queue == [] || Before(item, queue[0]) {
      SumConcat([item], queue, f);
      SumAppend([], item, f);
    } else {
      InsertSum(queue[1..], item, f);
      assert Insert(queue, item)[1..] == Insert(queue[1..], item);
    }
  }

  lemma {:induction false} DropSum(keys: seq<WorkerId>, key: WorkerId, f: WorkerId -> nat, g: WorkerId -> nat)
    requires forall x :: g(x) <= f(x)
    ensures Sum(Drop(keys, key), g) <= Sum(keys, f)
  {
    if keys != [] {
      DropSum(keys[1..], key, f, g);
      var rest := Drop(keys[1..], key);
      assert ([keys[0]] + rest)[1..] == rest;
    }
  }

  /** Replacing node `w`'s record changes the waiting copies by the difference of its queues. */
  lemma SetNodeCopies(s: State, w: WorkerId, node: Node, j: JobId)
    requires WF(s) && w in s.nodes
    ensures Copies(SetNode(s, w, node), j) + Sum(s.nodes[w].queue, IsId(j)) == Copies(s, j) + Sum(node.queue, IsId(j))
  {
    SumUpdate(s.order, w, QueuedOn(s.nodes, j), QueuedOn(s.nodes[w := node], j));
  }

  lemma PutCentralCopies(s: State, x: JobId, j: JobId)
    requires WF(s) && x in s.jobs
    ensures Copies(PutCentral(s, x), j) == Copies(s, j) + IsId(j)(x)
  {
    var spec := s.jobs[x].spec;
    InsertSum(s.central, Item(spec.priority, spec.createdAt, s.stamp + 1, x), IsItemOf(j));
  }

  lemma PlaceOnCopies(s: State, x: JobId, w: WorkerId, j: JobId)
    requires WF(s) && x in s.jobs && w in s.nodes
    ensures Copies(PlaceOn(s, x, w), j) == Copies(s, j) + IsId(j)(x)
  {
    SetNodeCopies(s, w, Joined(s.nodes[w], x), j);
    SumAppend(s.nodes[w].queue, x, IsId(j));
  }

  lemma RetryOnCopies(s: State, w: WorkerId, x: JobId, j: JobId)
    requires WF(s) && w in s.nodes && x in s.jobs
    ensures Copies(RetryOn(s, w, x), j) == Copies(s, j) + IsId(j)(x)
  {
    SetNodeCopies(s, w, Again(s.nodes[w], x), j);
    SumAppend(s.nodes[w].queue, x, IsId(j));
  }

  lemma SettleOnCopies(s: State, w: WorkerId, x: JobId, status: JobStatus, j: JobId)
    requires WF(s) && w in s.nodes && x in s.jobs
    ensures Copies(SettleOn(s, w, x, status), j) == Copies(s, j)
  {
    SetNodeCopies(s, w, LetGo(s.nodes[w], x), j);
  }

  lemma ReportBudget(s: State, w: WorkerId, x: JobId, status: JobStatus, j: JobId)
    requires WF(s)
    ensures var r := Report(s, w, x, status);
      && Copies(r, j) + Retried(s, j) == Copies(s, j) + Retried(r, j)
      && r.starts == s.starts && r.placements == s.placements && r.recoveries == s.recoveries
      && r.picked == s.picked
  {
    if w in s.nodes && x in s.registry && Terminal(status) {
      if status == Failed && RetriesLeft(s.jobs[x]) {
        RetryOnCopies(s, w, x, j);
      } else {
        SettleOnCopies(s, w, x, status, j);
      }
    }
  }

  lemma {:induction false} RequeueCopies(s: State, ids: seq<JobId>, j: JobId)
    requires WF(s) && AllKnown(s.jobs, ids)
    ensures var r := Requeue(s, ids);
      && Copies(r, j) + s.recoveries[j] == Copies(s, j) + r.recoveries[j]
      && r.starts == s.starts && r.placements == s.placements && Retried(r, j) == Retried(s, j)
    decreases |ids|
  {
    if ids != [] {
      var x := ids[0];
      var s1 := SetJob(s, x, s.jobs[x].(status := Queued, workerId := None));
      PutCentralCopies(s1, x, j);
      RequeueCopies(PutCentral(s1, x).(recoveries := s.recoveries + multiset{x}), ids[1..], j);
    }
  }

  // ---------------------------------------------------------------- each step stays within the budget

  lemma SweepNodeBudget(s: State, w: WorkerId, now: real, timeout: real, j: JobId)
    requires WF(s) && WithinBudget(s, j)
    ensures WithinBudget(SweepNode(s, w, now, timeout), j)
  {
    if w in s.nodes {
      var node := s.nodes[w];
      if node.status == Active {
        SetNodeCopies(s, w, node.(status := Suspended), j);
      } else if node.status == Suspended && now - node.lastHeartbeat >= timeout * 2.0 {
        RecoverBudget(s, w, j);
      }
    }
  }

  lemma RecoverBudget(s: State, w: WorkerId, j: JobId)
    requires WF(s) && WithinBudget(s, j) && w in s.nodes
    ensures WithinBudget(Requeue(SetNode(s, w, Evacuated(s.nodes[w])), s.nodes[w].held), j)
  {
    var node := s.nodes[w];
    var empty := Evacuated(node);
    SetNodeCopies(s, w, empty, j);
    RequeueCopies(SetNode(s, w, empty), node.held, j);
  }

  lemma {:induction false} SweepBudget(s: State, ws: seq<WorkerId>, now: real, timeout: real, j: JobId)
    requires WF(s) && WithinBudget(s, j)
    ensures WithinBudget(SweepFrom(s, ws, now, timeout), j)
    decreases |ws|
  {
    if ws != [] {
      SweepNodeBudget(s, ws[0], now, timeout, j);
      SweepBudget(SweepNode(s, ws[0], now, timeout), ws[1..], now, timeout, j);
    }
  }

  lemma SubmitBudget(s: State, op: Op, j: JobId)
    requires WF(s) && WithinBudget(s, j) && op.DoSubmit?
    ensures WithinBudget(Step(s, op), j)
  {
    var x, rec := op.job, NewJob(op.spec, op.cancelledBefore);
    var s1 := Admit(s, x, if x in s.jobs then s.jobs[x] else rec);
    assert s1.starts[j] + Copies(s1, j) + IsId(j)(x) <= s1.placements[j] + Retried(s1, j) + s1.recoveries[j];
    match Route(s1.nodes, s1.order, s1.jobs[x]) {
      case Some(w) => PlaceOnCopies(s1, x, w, j);
      case None => PutCentralCopies(s1, x, j);
    }
  }

  lemma AssignBudget(s: State, op: Op, j: JobId)
    requires WF(s) && WithinBudget(s, j) && op.DoAssign?
    ensures WithinBudget(Step(s, op), j)
  {
    var x, w := op.job, op.worker;
    if CanAssign(s, x, w) {
      PlaceOnCopies(s, x, w, j);
    }
  }

  lemma TakeLocalBudget(s: State, op: Op, j: JobId)
    requires WF(s) && WithinBudget(s, j) && op.DoTakeLocal?
    ensures WithinBudget(Step(s, op), j)
  {
    if s.central != [] {
      SumAppend(s.picked, Hand(Local, s.central[0].job), IsHandOf(j));
    }
  }

  lemma FetchBudget(s: State, op: Op, j: JobId)
    requires WF(s) && WithinBudget(s, j) && op.DoFetch?
    ensures WithinBudget(Step(s, op), j)
  {
    var w := op.worker;
    if w in s.nodes && s.nodes[w].queue != [] {
      var node := s.nodes[w];
      SetNodeCopies(s, w, node.(queue := node.queue[1..]), j);
      SumAppend(s.picked, Hand(Remote(w), node.queue[0]), IsHandOf(j));
    }
  }

  /** A job put down is one copy fewer. */
  lemma PutDownCopies(s: State, k: nat, j: JobId)
    requires WF(s) && k < |s.picked|
    ensures Copies(PutDown(s, k), j) + IsId(j)(s.picked[k].job) == Copies(s, j)
  {
    SumWithout(s.picked, k, IsHandOf(j));
  }

  lemma BeginLocalCopies(s: State, k: nat, j: JobId)
    requires WF(s) && k < |s.picked| && s.picked[k].holder.Local?
    ensures var r := BeginLocal(s, k);
      && Copies(r, j) + r.starts[j] <= Copies(s, j) + s.starts[j]
      && Retried(r, j) == Retried(s, j) && r.placements == s.placements && r.recoveries == s.recoveries
  {
    PutDownCopies(s, k, j);
  }

  lemma BeginLocalBudget(s: State, op: Op, j: JobId)
    requires WF(s) && WithinBudget(s, j) && op.DoBeginLocal?
    ensures WithinBudget(Step(s, op), j)
  {
    if op.hand < |s.picked| && s.picked[op.hand].holder.Local? {
      BeginLocalCopies(s, op.hand, j);
    }
  }

  lemma RetryLocalCopies(s: State, x: JobId, j: JobId)
    requires WF(s) && x in s.jobs
    ensures var r := RetryLocal(s, x);
      && Copies(r, j) + Retried(s, j) == Copies(s, j) + Retried(r, j)
      && r.starts == s.starts && r.placements == s.placements && r.recoveries == s.recoveries
  {
    PutCentralCopies(SetJob(s, x, Requeued(s.jobs[x])), x, j);
  }

  lemma EndLocalBudget(s: State, op: Op, j: JobId)
    requires WF(s) && WithinBudget(s, j) && op.DoEndLocal?
    ensures WithinBudget(Step(s, op), j)
  {
    var k := op.hand;
    if k < |s.running| && s.running[k].holder.Local? {
      RetryLocalCopies(Stop(s, k), s.running[k].job, j);
    }
  }

  lemma StartCopies(s: State, h: Hand, j: JobId)
    requires WF(s) && h.job in s.jobs
    ensures var r := StartTarget(s, h);
      && Copies(r, j) == Copies(s, j) && Retried(r, j) == Retried(s, j)
      && r.starts[j] == s.starts[j] + IsId(j)(h.job) && r.placements == s.placements && r.recoveries == s.recoveries
  {
  }

  lemma PickupBudget(s: State, k: nat, j: JobId)
    requires WF(s) && WithinBudget(s, j) && k < |s.picked| && s.picked[k].holder.Remote?
    ensures WithinBudget(BeginRemote(s, k), j)
  {
    var h := s.picked[k];
    var s1 := PutDown(s, k);
    PutDownCopies(s, k, j);
    ReportBudget(s1, h.holder.worker, h.job, Running, j);
    var s2 := Report(s1, h.holder.worker, h.job, Running);
    ReportBudget(s2, h.holder.worker, h.job, Cancelled, j);
    if s2.jobs[h.job].cancelled {
      assert BeginRemote(s, k) == Report(s2, h.holder.worker, h.job, Cancelled);
    } else {
      assert BeginRemote(s, k) == StartTarget(s2, h);
      StartCopies(s2, h, j);
    }
  }

  lemma BeginRemoteBudget(s: State, op: Op, j: JobId)
    requires WF(s) && WithinBudget(s, j) && op.DoBeginRemote?
    ensures WithinBudget(Step(s, op), j)
  {
    if op.hand < |s.picked| && s.picked[op.hand].holder.Remote? {
      PickupBudget(s, op.hand, j);
    }
  }

  lemma EndRemoteBudget(s: State, op: Op, j: JobId)
    requires WF(s) && WithinBudget(s, j) && op.DoEndRemote?
    ensures WithinBudget(Step(s, op), j)
  {
    var k, raised := op.hand, op.raised;
    if k < |s.running| && s.running[k].holder.Remote? {
      var h := s.running[k];
      ReportBudget(Stop(s, k), h.holder.worker, h.job, if raised then Failed else Completed, j);
    }
  }

  lemma NewWorkerCopies(s: State, w: WorkerId, capabilities: set<string>, now: real, j: JobId)
    requires WF(s)
    ensures Copies(Register(s, w, capabilities, now), j) <= Copies(s, j)
  {
    var node := Node(Registered, now, capabilities, [], []);
    if w in s.nodes {
      SetNodeCopies(s, w, node, j);
    } else {
      var after := QueuedOn(s.nodes[w := node], j);
      SumAgree(s.order, QueuedOn(s.nodes, j), after);
      SumAppend(s.order, w, after);
    }
  }

  lemma RegisterBudget(s: State, op: Op, j: JobId)
    requires WF(s) && WithinBudget(s, j) && op.DoRegister?
    ensures WithinBudget(Step(s, op), j)
  {
    NewWorkerCopies(s, op.worker, op.capabilities, op.now, j);
  }

  /** Changing a node without touching its queue. */
  lemma TouchBudget(s: State, w: WorkerId, node: Node, j: JobId)
    requires WF(s) && WithinBudget(s, j) && w in s.nodes && node.queue == s.nodes[w].queue
    ensures WithinBudget(SetNode(s, w, node), j)
  {
    SetNodeCopies(s, w, node, j);
  }

  lemma HeartbeatBudget(s: State, op: Op, j: JobId)
    requires WF(s) && WithinBudget(s, j) && op.DoHeartbeat?
    ensures WithinBudget(Step(s, op), j)
  {
    var w, now := op.worker, op.now;
    if w in s.nodes {
      TouchBudget(s, w, Beaten(s.nodes[w], now), j);
    }
  }

  lemma PauseBudget(s: State, op: Op, j: JobId)
    requires WF(s) && WithinBudget(s, j) && op.DoPause?
    ensures WithinBudget(Step(s, op), j)
  {
    if op.worker in s.nodes {
      TouchBudget(s, op.worker, s.nodes[op.worker].(status := Suspended), j);
    }
  }

  lemma ResumeBudget(s: State, op: Op, j: JobId)
    requires WF(s) && WithinBudget(s, j) && op.DoResume?
    ensures WithinBudget(Step(s, op), j)
  {
    if op.worker in s.nodes {
      TouchBudget(s, op.worker, s.nodes[op.worker].(status := Active), j);
    }
  }

  lemma MonitorBudget(s: State, op: Op, j: JobId)
    requires WF(s) && WithinBudget(s, j) && op.DoSweep?
    ensures WithinBudget(Step(s, op), j)
  {
    SweepBudget(s, s.order, op.now, op.timeout, j);
  }

  lemma UnregisterBudget(s: State, op: Op, j: JobId)
    requires WF(s) && WithinBudget(s, j) && op.DoUnregister?
    ensures WithinBudget(Step(s, op), j)
  {
    var w := op.worker;
    DropSum(s.order, w, QueuedOn(s.nodes, j), QueuedOn(s.nodes - {w}, j));
  }

  lemma BulkBudget(s: State, op: Op, j: JobId)
    requires WF(s) && WithinBudget(s, j)
    requires op.DoCancel? || op.DoSetPriority? || op.DoClearJobs? || op.DoDropWorkers? || op.DoClearQueue?
    ensures WithinBudget(Step(s, op), j)
  {
  }

  lemma LooseReportBudget(s: State, op: Op, j: JobId)
    requires WF(s) && WithinBudget(s, j) && op.DoReport?
    ensures WithinBudget(Step(s, op), j)
  {
    var w, x, status := op.worker, op.job, op.status;
    ReportBudget(s, w, x, status, j);
  }

  lemma StepBudget(s: State, op: Op, j: JobId)
    requires WF(s) && WithinBudget(s, j)
    ensures WithinBudget(Step(s, op), j)
  {
    match op
    case DoSubmit(_, _, _) => SubmitBudget(s, op, j);
    case DoAssign(_, _) => AssignBudget(s, op, j);
    case DoTakeLocal => TakeLocalBudget(s, op, j);
    case DoBeginLocal(_) => BeginLocalBudget(s, op, j);
    case DoEndLocal(_, _) => EndLocalBudget(s, op, j);
    case DoFetch(_) => FetchBudget(s, op, j);
    case DoBeginRemote(_) => BeginRemoteBudget(s, op, j);
    case DoEndRemote(_, _) => EndRemoteBudget(s, op, j);
    case DoReport(_, _, _) => LooseReportBudget(s, op, j);
    case DoRegister(_, _, _) => RegisterBudget(s, op, j);
    case DoUnregister(_) => UnregisterBudget(s, op, j);
    case DoHeartbeat(_, _) => HeartbeatBudget(s, op, j);
    case DoPause(_) => PauseBudget(s, op, j);
    case DoResume(_) => ResumeBudget(s, op, j);
    case DoSweep(_, _) => MonitorBudget(s, op, j);
    case _ => BulkBudget(s, op, j);
  }

  // ---------------------------------------------------------------- over runs

  lemma {:induction false} RunBudget(s: State, ops: seq<Op>, j: JobId)
    requires WF(s) && WithinBudget(s, j)
    ensures WithinBudget(Run(s, ops), j)
    decreases |ops|
  {
    if ops != [] {
      StepBudget(s, ops[0], j);
      RunBudget(Step(s, ops[0]), ops[1..], j);
    }
  }

  lemma {:induction false} RequeueRetries(s: State, ids: seq<JobId>, j: JobId)
    requires WF(s) && AllKnown(s.jobs, ids) && RetriesBounded(s, j)
    ensures RetriesBounded(Requeue(s, ids), j)
    decreases |ids|
  {
    if ids != [] {
      var x := ids[0];
      var s1 := SetJob(s, x, s.jobs[x].(status := Queued, workerId := None));
      RequeueRetries(PutCentral(s1, x).(recoveries := s.recoveries + multiset{x}), ids[1..], j);
    }
  }

  lemma {:induction false} SweepRetries(s: State, ws: seq<WorkerId>, now: real, timeout: real, j: JobId)
    requires WF(s) && RetriesBounded(s, j)
    ensures RetriesBounded(SweepFrom(s, ws, now, timeout), j)
    decreases |ws|
  {
    if ws != [] {
      var w := ws[0];
      if w in s.nodes {
        var node := s.nodes[w];
        RequeueRetries(SetNode(s, w, Evacuated(node)), node.held, j);
      }
      SweepRetries(SweepNode(s, w, now, timeout), ws[1..], now, timeout, j);
    }
  }

  lemma ReportRetries(s: State, w: WorkerId, x: JobId, status: JobStatus, j: JobId)
    requires WF(s) && RetriesBounded(s, j)
    ensures RetriesBounded(Report(s, w, x, status), j)
  {
  }

  lemma BeginRemoteRetries(s: State, k: nat, j: JobId)
    requires WF(s) && RetriesBounded(s, j)
    ensures RetriesBounded(BeginRemote(s, k), j)
  {
    if k < |s.picked| && s.picked[k].holder.Remote? {
      var h := s.picked[k];
      ReportRetries(PutDown(s, k), h.holder.worker, h.job, Running, j);
      ReportRetries(Report(PutDown(s, k), h.holder.worker, h.job, Running), h.holder.worker, h.job, Cancelled, j);
    }
  }

  lemma EndRemoteRetries(s: State, k: nat, raised: bool, j: JobId)
    requires WF(s) && RetriesBounded(s, j)
    ensures RetriesBounded(EndRemote(s, k, raised), j)
  {
    if k < |s.running| && s.running[k].holder.Remote? {
      ReportRetries(Stop(s, k), s.running[k].holder.worker, s.running[k].job, if raised then Failed else Completed, j);
    }
  }

  lemma SubmitRetries(s: State, x: JobId, spec: JobSpec, c: bool, j: JobId)
    requires WF(s) && RetriesBounded(s, j)
    ensures RetriesBounded(Submit(s, x, NewJob(spec, c)), j)
  {
  }

  lemma EndLocalRetries(s: State, k: nat, raised: bool, j: JobId)
    requires WF(s) && RetriesBounded(s, j)
    ensures RetriesBounded(EndLocal(s, k, raised), j)
  {
  }

  /** Steps that count no retry and admit no job. */
  predicate CountsNoRetry(op: Op) {
    !(op.DoSubmit? || op.DoSweep? || op.DoReport? || op.DoEndLocal? || op.DoBeginRemote? || op.DoEndRemote?)
  }

  lemma HandsRetries(s: State, op: Op, j: JobId)
    requires WF(s) && RetriesBounded(s, j) && CountsNoRetry(op)
    requires op.DoTakeLocal? || op.DoBeginLocal? || op.DoFetch? || op.DoCancel? || op.DoSetPriority? || op.DoAssign?
    ensures RetriesBounded(Step(s, op), j)
  {
  }

  lemma NodesRetries(s: State, op: Op, j: JobId)
    requires WF(s) && RetriesBounded(s, j) && CountsNoRetry(op)
    requires !(op.DoTakeLocal? || op.DoBeginLocal? || op.DoFetch? || op.DoCancel? || op.DoSetPriority? || op.DoAssign?)
    ensures RetriesBounded(Step(s, op), j)
  {
  }

  lemma StepRetries(s: State, op: Op, j: JobId)
    requires WF(s) && RetriesBounded(s, j)
    ensures RetriesBounded(Step(s, op), j)
  {
    match op
    case DoSubmit(x, spec, c) => SubmitRetries(s, x, spec, c, j);
    case DoSweep(now, timeout) => SweepRetries(s, s.order, now, timeout, j);
    case DoReport(w, x, status) => ReportRetries(s, w, x, status, j);
    case DoEndLocal(k, raised) => EndLocalRetries(s, k, raised, j);
    case DoBeginRemote(k) => BeginRemoteRetries(s, k, j);
    case DoEndRemote(k, raised) => EndRemoteRetries(s, k, raised, j);
    case _ =>
      if op.DoTakeLocal? || op.DoBeginLocal? || op.DoFetch? || op.DoCancel? || op.DoSetPriority? || op.DoAssign? {
        HandsRetries(s, op, j);
      } else {
        NodesRetries(s, op, j);
      }
  }

  lemma {:induction false} RunRetries(s: State, ops: seq<Op>, j: JobId)
    requires WF(s) && RetriesBounded(s, j)
    ensures RetriesBounded(Run(s, ops), j)
    decreases |ops|
  {
    if ops != [] {
      StepRetries(s, ops[0], j);
      RunRetries(Step(s, ops[0]), ops[1..], j);
    }
  }

  /**
   Over every run, the target of `j` has started at most once for each placement by a submission
   or a manual assignment, plus its retry limit, plus once for each recovery from a dead node; and
   the copies still waiting are already paid for.
   */
  lemma ExecutionsBounded(ops: seq<Op>, j: JobId)
    ensures var s := Run(InitialState, ops);
      && s.starts[j] + Copies(s, j) <= s.placements[j] + Retried(s, j) + s.recoveries[j]
      && (j in s.jobs ==> s.jobs[j].retryCount <= RetryLimit(s.jobs[j]))
      && s.starts[j] <= s.placements[j] + s.recoveries[j] + (if j in s.jobs then RetryLimit(s.jobs[j]) else 0)
  {
    RunBudget(InitialState, ops, j);
    RunRetries(InitialState, ops, j);
  }
}
