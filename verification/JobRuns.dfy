/** What the laws of the single steps add up to over runs: outcomes, starts and ends, live and silent workers, the order of a worker's queue. */
module JobRuns {
  import opened Prelude
  import opened Tallies
  import opened JobProtocol
  import opened JobBudget
  import opened JobPlaces
  import opened JobSteps
  import opened JobTheorems
  import opened JobLaws

  // ---------------------------------------------------------------- a job ends as its last run did

  /** How the step ended a run of `j`, true for a raise; None when it ended none, or nobody heard of it. */
  function EndOf(s: State, op: Op, j: JobId): Option<bool>
    requires WF(s)
  {
    match op
    case DoEndLocal(k, raised) => if k < |s.running| && s.running[k] == Hand(Local, j) then Some(raised) else None
    case DoEndRemote(k, raised) =>
      if k < |s.running| && s.running[k].holder.Remote? && s.running[k].job == j && Heard(s, s.running[k].holder.worker, j)
      then Some(raised) else None
    case _ => None
  }

  function Latest(s: State, op: Op, j: JobId, last: Option<bool>): Option<bool>
    requires WF(s)
  {
    if EndOf(s, op, j).Some? then EndOf(s, op, j) else last
  }

  /** How the last run of `j` ended, `last` having been the end before. */
  function LastEnd(s: State, ops: seq<Op>, j: JobId, last: Option<bool>): Option<bool>
    requires WF(s)
    decreases |ops|
  {
    if ops == [] then last else LastEnd(Step(s, ops[0]), ops[1..], j, Latest(s, ops[0], j, last))
  }

  /** Nobody reports an outcome of `j` but those who run it. */
  predicate NoVerdict(op: Op, j: JobId) {
    op.DoReport? && op.job == j ==> !Terminal(op.status)
  }

  /** A final status tells how the last run ended, and that no retries were left or that the job was cancelled. */
  ghost predicate Told(s: State, j: JobId, last: Option<bool>) {
    j in s.jobs ==>
      && (s.jobs[j].status == Completed ==> last == Some(false))
      && (s.jobs[j].status == Failed ==> last == Some(true) && s.jobs[j].retryCount >= s.jobs[j].spec.retries)
      && (s.jobs[j].status == Cancelled ==> s.jobs[j].cancelled)
  }

  lemma LocalEndTells(s: State, k: nat, raised: bool, j: JobId, last: Option<bool>)
    requires WF(s) && Told(s, j, last)
    ensures Told(EndLocal(s, k, raised), j, Latest(s, DoEndLocal(k, raised), j, last))
  {
    if k < |s.running| && s.running[k].holder.Local? {
      LocalRunEnds(s, k, s.running[k].job, raised);
    }
  }

  lemma RemoteEndTells(s: State, k: nat, raised: bool, j: JobId, last: Option<bool>)
    requires WF(s) && Told(s, j, last)
    ensures Told(EndRemote(s, k, raised), j, Latest(s, DoEndRemote(k, raised), j, last))
  {
    if k < |s.running| && s.running[k].holder.Remote? {
      RemoteRunEnds(s, k, s.running[k].holder.worker, s.running[k].job, raised);
    }
  }

  lemma BeginTells(s: State, op: Op, j: JobId, last: Option<bool>)
    requires WF(s) && Told(s, j, last) && (op.DoBeginLocal? || op.DoBeginRemote?)
    ensures Told(Step(s, op), j, last)
  {
    var k := op.hand;
    if k < |s.picked| {
      if op.DoBeginLocal? && s.picked[k].holder.Local? {
        LocalRunBegins(s, k, s.picked[k].job);
      } else if op.DoBeginRemote? && s.picked[k].holder.Remote? {
        RemoteRunBegins(s, k, s.picked[k].holder.worker, s.picked[k].job);
      }
    }
  }

  lemma ReportTells(s: State, op: Op, j: JobId, last: Option<bool>)
    requires WF(s) && Told(s, j, last) && op.DoReport? && NoVerdict(op, j)
    ensures Told(Step(s, op), j, last)
  {
    ReportMeans(s, op.worker, op.job, op.status);
  }

  lemma SubmitTells(s: State, x: JobId, rec: JobRec, j: JobId, last: Option<bool>)
    requires WF(s) && Told(s, j, last)
    ensures Told(Submit(s, x, rec), j, last)
  {
    var to := SubmitMeans(s, x, rec);
  }

  lemma PlacingTells(s: State, op: Op, j: JobId, last: Option<bool>)
    requires WF(s) && Told(s, j, last) && (op.DoAssign? || op.DoCancel?)
    ensures Told(Step(s, op), j, last)
  {
    match op {
      case DoAssign(x, w) => AssignMeans(s, x, w);
      case DoCancel(x) => CancelMeans(s, x);
    }
  }

  lemma SweepTells(s: State, now: real, timeout: real, j: JobId, last: Option<bool>)
    requires WF(s) && Told(s, j, last)
    ensures Told(SweepFrom(s, s.order, now, timeout), j, last)
  {
    SweepFromRecords(s, s.order, now, timeout, j);
  }

  /** Steps that leave every record alone, or set a priority only. */
  predicate OffRecords(op: Op) {
    || op.DoTakeLocal? || op.DoFetch? || op.DoSetPriority? || op.DoRegister? || op.DoUnregister? || op.DoHeartbeat?
    || op.DoPause? || op.DoResume? || op.DoClearJobs? || op.DoDropWorkers? || op.DoClearQueue?
  }

  lemma OffRecordsTell(s: State, op: Op, j: JobId, last: Option<bool>)
    requires WF(s) && Told(s, j, last) && OffRecords(op)
    ensures Told(Step(s, op), j, last)
  {
  }

  lemma StepTells(s: State, op: Op, j: JobId, last: Option<bool>)
    requires WF(s) && Told(s, j, last) && NoVerdict(op, j)
    ensures Told(Step(s, op), j, Latest(s, op, j, last))
  {
    match op
    case DoEndLocal(k, raised) => LocalEndTells(s, k, raised, j, last);
    case DoEndRemote(k, raised) => RemoteEndTells(s, k, raised, j, last);
    case DoBeginLocal(_) => BeginTells(s, op, j, last);
    case DoBeginRemote(_) => BeginTells(s, op, j, last);
    case DoReport(_, _, _) => ReportTells(s, op, j, last);
    case DoSubmit(x, spec, c) => SubmitTells(s, x, NewJob(spec, c), j, last);
    case DoAssign(_, _) => PlacingTells(s, op, j, last);
    case DoCancel(_) => PlacingTells(s, op, j, last);
    case DoSweep(now, timeout) => SweepTells(s, now, timeout, j, last);
    case _ => OffRecordsTell(s, op, j, last);
  }

  lemma {:induction false} RunTells(s: State, ops: seq<Op>, j: JobId, last: Option<bool>)
    requires WF(s) && Told(s, j, last) && forall op | op in ops :: NoVerdict(op, j)
    ensures Told(Run(s, ops), j, LastEnd(s, ops, j, last))
    decreases |ops|
  {
    if ops != [] {
      StepTells(s, ops[0], j, last);
      RunTells(Step(s, ops[0]), ops[1..], j, Latest(s, ops[0], j, last));
    }
  }

  /**
   Over every run in which nobody but its runners reports an outcome of `j`: it is COMPLETED only if its
   last run returned, FAILED only if its last run raised with no retries left, CANCELLED only if it was
   cancelled.
   */
  lemma OutcomeIsThatOfTheLastRun(ops: seq<Op>, j: JobId)
    requires forall op | op in ops :: NoVerdict(op, j)
    ensures var s, last := Run(InitialState, ops), LastEnd(InitialState, ops, j, None);
      j in s.jobs ==>
        && (s.jobs[j].status == Completed ==> last == Some(false))
        && (s.jobs[j].status == Failed ==> last == Some(true) && s.jobs[j].retryCount >= s.jobs[j].spec.retries)
        && (s.jobs[j].status == Cancelled ==> s.jobs[j].cancelled)
  {
    RunTells(InitialState, ops, j, None);
  }

  /**
   Over every harmless such run: a job that is in no place any more and was not cancelled has run, and is
   COMPLETED exactly when its last run returned and FAILED exactly when that one raised.
   */
  lemma FinishedAsItsLastRun(ops: seq<Op>, j: JobId)
    requires HarmlessRun(InitialState, ops) && forall op | op in ops :: NoVerdict(op, j)
    requires var s := Run(InitialState, ops); j in s.jobs && !s.jobs[j].cancelled && Places(s, j) == 0
    ensures var s, last := Run(InitialState, ops), LastEnd(InitialState, ops, j, None);
      && last.Some?
      && (s.jobs[j].status == Completed <==> last == Some(false))
      && (s.jobs[j].status == Failed <==> last == Some(true))
  {
    RunTells(InitialState, ops, j, None);
    InitialInv();
    RunInv(InitialState, ops);
    assert JobInv(Run(InitialState, ops), j);
  }

  // ---------------------------------------------------------------- every start ends once

  /** Whether the step ends a run of `j`, heard or not. */
  function Ends(s: State, op: Op, j: JobId): nat {
    match op
    case DoEndLocal(k, _) => if k < |s.running| && s.running[k] == Hand(Local, j) then 1 else 0
    case DoEndRemote(k, _) => if k < |s.running| && s.running[k].holder.Remote? && s.running[k].job == j then 1 else 0
    case _ => 0
  }

  function EndsIn(s: State, ops: seq<Op>, j: JobId): nat
    requires WF(s)
    decreases |ops|
  {
    if ops == [] then 0 else Ends(s, ops[0], j) + EndsIn(Step(s, ops[0]), ops[1..], j)
  }

  /** The step leaves what runs and the count of starts alone. */
  ghost predicate RunsOn(s: State, r: State) {
    r.running == s.running && r.starts == s.starts
  }

  lemma OthersRunOn(s: State, op: Op)
    requires WF(s) && !op.DoBeginLocal? && !op.DoBeginRemote? && !op.DoEndLocal? && !op.DoEndRemote?
    ensures RunsOn(s, Step(s, op))
  {
    match op
    case DoSubmit(x, spec, c) => var to := SubmitMeans(s, x, NewJob(spec, c));
    case DoReport(w, x, status) => ReportMeans(s, w, x, status);
    case DoSweep(now, timeout) => SweepFromRecords(s, s.order, now, timeout, "");
    case _ => BulkRunsOn(s, op);
  }

  lemma BulkRunsOn(s: State, op: Op)
    requires WF(s) && (OffRecords(op) || op.DoAssign? || op.DoCancel?)
    ensures RunsOn(s, Step(s, op))
  {
  }

  lemma StartsBegin(s: State, op: Op, j: JobId)
    requires WF(s) && (op.DoBeginLocal? || op.DoBeginRemote?)
    ensures var r := Step(s, op); r.starts[j] + Sum(s.running, IsHandOf(j)) == s.starts[j] + Sum(r.running, IsHandOf(j))
  {
    var k := op.hand;
    if k < |s.picked| {
      SumAppend(s.running, s.picked[k], IsHandOf(j));
      if op.DoBeginLocal? && s.picked[k].holder.Local? {
        LocalRunBegins(s, k, s.picked[k].job);
      } else if op.DoBeginRemote? && s.picked[k].holder.Remote? {
        RemoteRunBegins(s, k, s.picked[k].holder.worker, s.picked[k].job);
      }
    }
  }

  lemma StartsEnd(s: State, op: Op, j: JobId)
    requires WF(s) && (op.DoEndLocal? || op.DoEndRemote?)
    ensures var r := Step(s, op); r.starts == s.starts && Sum(s.running, IsHandOf(j)) == Ends(s, op, j) + Sum(r.running, IsHandOf(j))
  {
    var k := op.hand;
    if k < |s.running| {
      SumWithout(s.running, k, IsHandOf(j));
      if op.DoEndLocal? && s.running[k].holder.Local? {
        LocalRunEnds(s, k, s.running[k].job, op.raised);
      } else if op.DoEndRemote? && s.running[k].holder.Remote? {
        RemoteRunEnds(s, k, s.running[k].holder.worker, s.running[k].job, op.raised);
      }
    }
  }

  /** Over every run, what started has ended or still runs: no run is lost and none ends twice. */
  lemma {:induction false} StartsEndOnce(s: State, ops: seq<Op>, j: JobId)
    requires WF(s)
    ensures var r := Run(s, ops);
      r.starts[j] + Sum(s.running, IsHandOf(j)) == s.starts[j] + EndsIn(s, ops, j) + Sum(r.running, IsHandOf(j))
    decreases |ops|
  {
    if ops != [] {
      var op := ops[0];
      if op.DoBeginLocal? || op.DoBeginRemote? {
        StartsBegin(s, op, j);
      } else if op.DoEndLocal? || op.DoEndRemote? {
        StartsEnd(s, op, j);
      } else {
        OthersRunOn(s, op);
      }
      StartsEndOnce(Step(s, op), ops[1..], j);
    }
  }

  // ---------------------------------------------------------------- live and silent workers

  /** The step is not about the life of `w`: no heartbeat, pause, resume or registration of it, and no sweep. */
  predicate NotOfLife(op: Op, w: WorkerId) {
    match op
    case DoHeartbeat(v, _) => v != w
    case DoPause(v) => v != w
    case DoResume(v) => v != w
    case DoRegister(v, _, _) => v != w
    case DoUnregister(v) => v != w
    case DoDropWorkers => false
    case DoSweep(_, _) => false
    case _ => true
  }

  ghost predicate SameLife(s: State, r: State, w: WorkerId) {
    w in s.nodes ==> w in r.nodes && r.nodes[w].status == s.nodes[w].status && r.nodes[w].lastHeartbeat == s.nodes[w].lastHeartbeat
  }

  lemma HandsLife(s: State, op: Op, w: WorkerId)
    requires WF(s) && (op.DoBeginLocal? || op.DoBeginRemote? || op.DoEndLocal? || op.DoEndRemote?)
    ensures SameLife(s, Step(s, op), w)
  {
    var k := op.hand;
    match op {
      case DoBeginLocal(_) =>
        if k < |s.picked| && s.picked[k].holder.Local? {
          LocalRunBegins(s, k, s.picked[k].job);
        }
      case DoBeginRemote(_) =>
        if k < |s.picked| && s.picked[k].holder.Remote? {
          RemoteRunBegins(s, k, s.picked[k].holder.worker, s.picked[k].job);
        }
      case DoEndLocal(_, raised) =>
        if k < |s.running| && s.running[k].holder.Local? {
          LocalRunEnds(s, k, s.running[k].job, raised);
        }
      case DoEndRemote(_, raised) =>
        if k < |s.running| && s.running[k].holder.Remote? {
          RemoteRunEnds(s, k, s.running[k].holder.worker, s.running[k].job, raised);
        }
    }
  }

  lemma NodesLife(s: State, op: Op, w: WorkerId)
    requires WF(s) && NotOfLife(op, w)
    requires op.DoRegister? || op.DoUnregister?
    ensures SameLife(s, Step(s, op), w)
  {
  }

  lemma StatusLife(s: State, op: Op, w: WorkerId)
    requires WF(s) && NotOfLife(op, w)
    requires op.DoHeartbeat? || op.DoPause? || op.DoResume?
    ensures SameLife(s, Step(s, op), w)
  {
  }

  lemma RecordsLife(s: State, op: Op, w: WorkerId)
    requires WF(s)
    requires op.DoTakeLocal? || op.DoSetPriority? || op.DoCancel? || op.DoClearJobs? || op.DoClearQueue?
    ensures SameLife(s, Step(s, op), w)
  {
  }

  lemma SubmitLife(s: State, x: JobId, rec: JobRec, w: WorkerId)
    requires WF(s)
    ensures SameLife(s, Submit(s, x, rec), w)
  {
    var to := SubmitMeans(s, x, rec);
  }

  lemma PlacingLife(s: State, op: Op, w: WorkerId)
    requires WF(s) && (op.DoAssign? || op.DoFetch?)
    ensures SameLife(s, Step(s, op), w)
  {
    match op {
      case DoAssign(x, v) => AssignMeans(s, x, v);
      case DoFetch(v) => FetchMeans(s, v);
    }
  }

  lemma ReportLife(s: State, op: Op, w: WorkerId)
    requires WF(s) && op.DoReport?
    ensures SameLife(s, Step(s, op), w)
  {
    ReportMeans(s, op.worker, op.job, op.status);
  }

  lemma StepLife(s: State, op: Op, w: WorkerId)
    requires WF(s) && NotOfLife(op, w)
    ensures SameLife(s, Step(s, op), w)
  {
    match op
    case DoSubmit(x, spec, c) => SubmitLife(s, x, NewJob(spec, c), w);
    case DoAssign(_, _) => PlacingLife(s, op, w);
    case DoFetch(_) => PlacingLife(s, op, w);
    case DoReport(_, _, _) => ReportLife(s, op, w);
    case DoBeginLocal(_) => HandsLife(s, op, w);
    case DoBeginRemote(_) => HandsLife(s, op, w);
    case DoEndLocal(_, _) => HandsLife(s, op, w);
    case DoEndRemote(_, _) => HandsLife(s, op, w);
    case _ =>
      if op.DoTakeLocal? || op.DoSetPriority? || op.DoCancel? || op.DoClearJobs? || op.DoClearQueue? {
        RecordsLife(s, op, w);
      } else if op.DoRegister? || op.DoUnregister? {
        NodesLife(s, op, w);
      } else {
        StatusLife(s, op, w);
      }
  }

  /** Every sweep finds `w`'s last heartbeat, `beat` at first, younger than the timeout, and nobody pauses or registers it anew. */
  predicate InTime(ops: seq<Op>, w: WorkerId, beat: real) {
    ops == [] ||
    match ops[0]
    case DoHeartbeat(v, now) => InTime(ops[1..], w, if v == w then now else beat)
    case DoSweep(now, timeout) => now - beat < timeout && InTime(ops[1..], w, beat)
    case DoResume(_) => InTime(ops[1..], w, beat)
    case _ => NotOfLife(ops[0], w) && InTime(ops[1..], w, beat)
  }

  /** A worker whose heartbeats come in time stays ACTIVE over every run. */
  lemma {:induction false} PunctualStaysActive(s: State, ops: seq<Op>, w: WorkerId)
    requires WF(s) && w in s.nodes && s.nodes[w].status == Active && InTime(ops, w, s.nodes[w].lastHeartbeat)
    ensures var r := Run(s, ops); w in r.nodes && r.nodes[w].status == Active
    decreases |ops|
  {
    if ops != [] {
      match ops[0] {
        case DoHeartbeat(v, now) => HeartbeatMeans(s, v, now);
        case DoSweep(now, timeout) => SweepFromNodes(s, s.order, now, timeout);
        case DoResume(_) =>
        case _ => StepLife(s, ops[0], w);
      }
      PunctualStaysActive(Step(s, ops[0]), ops[1..], w);
    }
  }

  /** Nothing is heard of `w`, and nobody touches its status but the monitor. */
  predicate Quiet(op: Op, w: WorkerId) {
    op.DoSweep? || NotOfLife(op, w)
  }

  /** How far a silent worker has fallen. */
  function Depth(status: WorkerState): nat {
    match status case Active => 0 case Suspended => 1 case Offline => 2 case Registered => 3 case Broken => 3
  }

  /** Last heard of at `beat`, the worker has fallen `depth` steps at least. */
  ghost predicate Fallen(s: State, w: WorkerId, beat: real, depth: nat) {
    w in s.nodes && s.nodes[w].lastHeartbeat == beat && depth <= Depth(s.nodes[w].status) <= 2
  }

  lemma QuietStep(s: State, op: Op, w: WorkerId, beat: real, depth: nat)
    requires WF(s) && Fallen(s, w, beat, depth) && Quiet(op, w)
    ensures Fallen(Step(s, op), w, beat, depth)
    ensures op.DoSweep? && op.now - beat >= op.timeout ==> Fallen(Step(s, op), w, beat, 1)
    ensures op.DoSweep? && op.now - beat >= 2.0 * op.timeout && depth >= 1 ==> Fallen(Step(s, op), w, beat, 2)
  {
    if op.DoSweep? {
      SweepFromNodes(s, s.order, op.now, op.timeout);
    } else {
      StepLife(s, op, w);
    }
  }

  lemma {:induction false} QuietRun(s: State, ops: seq<Op>, w: WorkerId, beat: real, depth: nat)
    requires WF(s) && Fallen(s, w, beat, depth) && forall op | op in ops :: Quiet(op, w)
    ensures Fallen(Run(s, ops), w, beat, depth)
    decreases |ops|
  {
    if ops != [] {
      QuietStep(s, ops[0], w, beat, depth);
      QuietRun(Step(s, ops[0]), ops[1..], w, beat, depth);
    }
  }

  /** A worker already suspended goes OFFLINE at a sweep that finds it silent for twice the timeout. */
  lemma {:induction false} SuspendedFalls(s: State, ops: seq<Op>, w: WorkerId, beat: real, b: nat)
    requires WF(s) && Fallen(s, w, beat, 1) && forall op | op in ops :: Quiet(op, w)
    requires b < |ops| && ops[b].DoSweep? && ops[b].now - beat >= 2.0 * ops[b].timeout
    ensures Fallen(Run(s, ops), w, beat, 2)
    decreases |ops|
  {
    QuietStep(s, ops[0], w, beat, 1);
    if b == 0 {
      QuietRun(Step(s, ops[0]), ops[1..], w, beat, 2);
    } else {
      assert ops[1..][b - 1] == ops[b];
      SuspendedFalls(Step(s, ops[0]), ops[1..], w, beat, b - 1);
    }
  }

  predicate SilentAt(ops: seq<Op>, i: nat, beat: real, times: real) {
    i < |ops| && ops[i].DoSweep? && ops[i].now - beat >= times * ops[i].timeout
  }

  lemma SilentAtRest(ops: seq<Op>, i: nat, beat: real, times: real)
    requires i > 0 && SilentAt(ops, i, beat, times)
    ensures SilentAt(ops[1..], i - 1, beat, times)
  {
  }

  /** The first of the two sweeps leaves the worker suspended at least. */
  lemma FirstSweep(s: State, ops: seq<Op>, w: WorkerId, beat: real, b: nat)
    requires WF(s) && Fallen(s, w, beat, 0) && forall op | op in ops :: Quiet(op, w)
    requires 0 < b && SilentAt(ops, 0, beat, 1.0) && SilentAt(ops, b, beat, 2.0)
    ensures Fallen(Run(s, ops), w, beat, 2)
  {
    QuietStep(s, ops[0], w, beat, 0);
    SilentAtRest(ops, b, beat, 2.0);
    SuspendedFalls(Step(s, ops[0]), ops[1..], w, beat, b - 1);
  }

  lemma {:induction false} SilentFalls(s: State, ops: seq<Op>, w: WorkerId, beat: real, a: nat, b: nat)
    requires WF(s) && Fallen(s, w, beat, 0) && forall op | op in ops :: Quiet(op, w)
    requires a < b && SilentAt(ops, a, beat, 1.0) && SilentAt(ops, b, beat, 2.0)
    ensures Fallen(Run(s, ops), w, beat, 2)
    decreases |ops|
  {
    if a == 0 {
      FirstSweep(s, ops, w, beat, b);
    } else {
      QuietStep(s, ops[0], w, beat, 0);
      SilentAtRest(ops, a, beat, 1.0);
      SilentAtRest(ops, b, beat, 2.0);
      SilentFalls(Step(s, ops[0]), ops[1..], w, beat, a - 1, b - 1);
    }
  }

  lemma QueuedIsHeld(node: Node)
    requires forall j | j in node.queue :: j in node.held
    ensures node.held == [] ==> node.queue == []
  {
    assert node.queue != [] ==> node.queue[0] in node.queue;
  }

  /**
   A worker nothing is heard of: once one sweep finds it silent for the timeout and a later one for
   twice the timeout, it is OFFLINE, and holds nothing when the run was harmless.
   */
  lemma SilentGoesOffline(s: State, ops: seq<Op>, w: WorkerId, a: nat, b: nat)
    requires WF(s) && w in s.nodes && s.nodes[w].status in {Active, Suspended, Offline}
    requires forall op | op in ops :: Quiet(op, w)
    requires a < b < |ops| && ops[a].DoSweep? && ops[b].DoSweep?
    requires ops[a].now - s.nodes[w].lastHeartbeat >= ops[a].timeout
    requires ops[b].now - s.nodes[w].lastHeartbeat >= 2.0 * ops[b].timeout
    ensures var r := Run(s, ops);
      && w in r.nodes && r.nodes[w].status == Offline
      && (Inv(s) && HarmlessRun(s, ops) ==> r.nodes[w].held == [] && r.nodes[w].queue == [])
  {
    SilentFalls(s, ops, w, s.nodes[w].lastHeartbeat, a, b);
    if Inv(s) && HarmlessRun(s, ops) {
      RunInv(s, ops);
      assert NodeInv(Run(s, ops), w);
      QueuedIsHeld(Run(s, ops).nodes[w]);
    }
  }

  // ---------------------------------------------------------------- first in, first out

  function QueueOf(s: State, w: WorkerId): seq<JobId> {
    if w in s.nodes then s.nodes[w].queue else []
  }

  /** The job that the step puts into the hands of `w`'s runner. */
  function Taken(s: State, r: State, w: WorkerId): seq<JobId> {
    if |r.picked| == |s.picked| + 1 && r.picked[|s.picked|].holder == Remote(w) then [r.picked[|s.picked|].job] else []
  }

  /** The jobs that `w`'s runner takes over the run, in the order in which it takes them. */
  function TakenIn(s: State, ops: seq<Op>, w: WorkerId): seq<JobId>
    requires WF(s)
    decreases |ops|
  {
    if ops == [] then [] else Taken(s, Step(s, ops[0]), w) + TakenIn(Step(s, ops[0]), ops[1..], w)
  }

  /** The step takes the whole queue of `w` away. */
  predicate Empties(s: State, op: Op, w: WorkerId) {
    match op
    case DoRegister(v, _, _) => v == w
    case DoUnregister(v) => v == w
    case DoDropWorkers => true
    case DoSweep(now, timeout) => w in s.nodes && Lost(s.nodes[w], now, timeout)
    case _ => false
  }

  predicate NeverEmptied(s: State, ops: seq<Op>, w: WorkerId)
    requires WF(s)
    decreases |ops|
  {
    ops == [] || (!Empties(s, ops[0], w) && NeverEmptied(Step(s, ops[0]), ops[1..], w))
  }

  /** What is taken comes from the front of the queue and what is added goes to its back. */
  ghost predicate Advances(s: State, r: State, w: WorkerId, added: seq<JobId>) {
    QueueOf(s, w) + added == Taken(s, r, w) + QueueOf(r, w)
  }

  lemma KeptAdvances(s: State, r: State, w: WorkerId)
    requires QueueOf(r, w) == QueueOf(s, w) && |r.picked| <= |s.picked|
    ensures Advances(s, r, w, [])
  {
  }

  lemma AddedAdvances(s: State, r: State, w: WorkerId, j: JobId)
    requires QueueOf(r, w) == QueueOf(s, w) + [j] && |r.picked| <= |s.picked|
    ensures Advances(s, r, w, [j])
  {
  }

  lemma BeginAdvances(s: State, op: Op, w: WorkerId)
    requires WF(s) && (op.DoBeginLocal? || op.DoBeginRemote?)
    ensures Advances(s, Step(s, op), w, [])
  {
    var k := op.hand;
    if k < |s.picked| {
      if op.DoBeginLocal? && s.picked[k].holder.Local? {
        LocalRunBegins(s, k, s.picked[k].job);
      } else if op.DoBeginRemote? && s.picked[k].holder.Remote? {
        RemoteRunBegins(s, k, s.picked[k].holder.worker, s.picked[k].job);
      }
    }
    KeptAdvances(s, Step(s, op), w);
  }

  lemma EndAdvances(s: State, op: Op, w: WorkerId) returns (added: seq<JobId>)
    requires WF(s) && (op.DoEndLocal? || op.DoEndRemote?)
    ensures Advances(s, Step(s, op), w, added)
  {
    var k := op.hand;
    added := [];
    if op.DoEndRemote? && k < |s.running| && s.running[k].holder.Remote? {
      var v, j := s.running[k].holder.worker, s.running[k].job;
      RemoteRunEnds(s, k, v, j, op.raised);
      if v == w && Heard(s, w, j) && op.raised && s.jobs[j].retryCount < s.jobs[j].spec.retries {
        added := [j];
        AddedAdvances(s, Step(s, op), w, j);
        return;
      }
    } else if op.DoEndLocal? && k < |s.running| && s.running[k].holder.Local? {
      LocalRunEnds(s, k, s.running[k].job, op.raised);
    }
    KeptAdvances(s, Step(s, op), w);
  }

  lemma SubmitAdvances(s: State, j: JobId, rec: JobRec, w: WorkerId) returns (added: seq<JobId>)
    requires WF(s)
    ensures Advances(s, Submit(s, j, rec), w, added)
  {
    var to := SubmitMeans(s, j, rec);
    if to == Some(w) {
      added := [j];
      AddedAdvances(s, Submit(s, j, rec), w, j);
    } else {
      added := [];
      KeptAdvances(s, Submit(s, j, rec), w);
    }
  }

  lemma AssignAdvances(s: State, j: JobId, v: WorkerId, w: WorkerId) returns (added: seq<JobId>)
    requires WF(s)
    ensures Advances(s, Assign(s, j, v), w, added)
  {
    AssignMeans(s, j, v);
    if v == w && CanAssign(s, j, w) {
      added := [j];
      AddedAdvances(s, Assign(s, j, v), w, j);
    } else {
      added := [];
      KeptAdvances(s, Assign(s, j, v), w);
    }
  }

  lemma ReportAdvances(s: State, v: WorkerId, j: JobId, status: JobStatus, w: WorkerId) returns (added: seq<JobId>)
    requires WF(s)
    ensures Advances(s, Report(s, v, j, status), w, added)
  {
    ReportMeans(s, v, j, status);
    if v == w && Heard(s, w, j) && status == Failed && s.jobs[j].retryCount < s.jobs[j].spec.retries {
      added := [j];
      AddedAdvances(s, Report(s, v, j, status), w, j);
    } else {
      added := [];
      KeptAdvances(s, Report(s, v, j, status), w);
    }
  }

  lemma SweepAdvances(s: State, now: real, timeout: real, w: WorkerId)
    requires WF(s) && !Empties(s, DoSweep(now, timeout), w)
    ensures Advances(s, SweepFrom(s, s.order, now, timeout), w, [])
  {
    SweepFromNodes(s, s.order, now, timeout);
    SweepFromRecords(s, s.order, now, timeout, "");
    KeptAdvances(s, SweepFrom(s, s.order, now, timeout), w);
  }

  lemma TakingAdvances(s: State, op: Op, w: WorkerId)
    requires WF(s) && (op.DoTakeLocal? || op.DoFetch?)
    ensures Advances(s, Step(s, op), w, [])
  {
    if op.DoFetch? {
      FetchMeans(s, op.worker);
    }
  }

  lemma NodesAdvance(s: State, op: Op, w: WorkerId)
    requires WF(s) && !Empties(s, op, w)
    requires op.DoRegister? || op.DoUnregister? || op.DoHeartbeat? || op.DoPause? || op.DoResume? || op.DoDropWorkers?
    ensures Advances(s, Step(s, op), w, [])
  {
    KeptAdvances(s, Step(s, op), w);
  }

  lemma RecordsAdvance(s: State, op: Op, w: WorkerId)
    requires WF(s)
    requires op.DoSetPriority? || op.DoCancel? || op.DoClearJobs? || op.DoClearQueue?
    ensures Advances(s, Step(s, op), w, [])
  {
    KeptAdvances(s, Step(s, op), w);
  }

  lemma StepAdvances(s: State, op: Op, w: WorkerId) returns (added: seq<JobId>)
    requires WF(s) && !Empties(s, op, w)
    ensures Advances(s, Step(s, op), w, added)
  {
    added := [];
    match op {
      case DoSubmit(j, spec, c) => added := SubmitAdvances(s, j, NewJob(spec, c), w);
      case DoAssign(j, v) => added := AssignAdvances(s, j, v, w);
      case DoReport(v, j, status) => added := ReportAdvances(s, v, j, status, w);
      case DoBeginLocal(_) => BeginAdvances(s, op, w);
      case DoBeginRemote(_) => BeginAdvances(s, op, w);
      case DoEndLocal(_, _) => added := EndAdvances(s, op, w);
      case DoEndRemote(_, _) => added := EndAdvances(s, op, w);
      case DoTakeLocal => TakingAdvances(s, op, w);
      case DoFetch(_) => TakingAdvances(s, op, w);
      case DoSweep(now, timeout) => SweepAdvances(s, now, timeout, w);
      case DoSetPriority(_, _) => RecordsAdvance(s, op, w);
      case DoCancel(_) => RecordsAdvance(s, op, w);
      case DoClearJobs => RecordsAdvance(s, op, w);
      case DoClearQueue => RecordsAdvance(s, op, w);
      case _ => NodesAdvance(s, op, w);
    }
  }

  lemma Chained<T>(q: seq<T>, first: seq<T>, rest: seq<T>, taken: seq<T>, mid: seq<T>, later: seq<T>, end: seq<T>)
    requires q + first == taken + mid && mid + rest == later + end
    ensures q + (first + rest) == (taken + later) + end
  {
    assert q + (first + rest) == (q + first) + rest;
    assert (taken + mid) + rest == taken + (mid + rest);
    assert taken + (later + end) == (taken + later) + end;
  }

  /**
   Over every run that leaves a worker its queue, its runner takes jobs in the order in which they were
   queued: those taken and those still waiting are the queue before, followed by what was added since.
   */
  lemma {:induction false} FirstInFirstOut(s: State, ops: seq<Op>, w: WorkerId) returns (added: seq<JobId>)
    requires WF(s) && NeverEmptied(s, ops, w)
    ensures QueueOf(s, w) + added == TakenIn(s, ops, w) + QueueOf(Run(s, ops), w)
    decreases |ops|
  {
    added := [];
    if ops != [] {
      var r := Step(s, ops[0]);
      var first := StepAdvances(s, ops[0], w);
      var rest := FirstInFirstOut(r, ops[1..], w);
      added := first + rest;
      Chained(QueueOf(s, w), first, rest, Taken(s, r, w), QueueOf(r, w), TakenIn(r, ops[1..], w), QueueOf(Run(s, ops), w));
    }
  }
}
