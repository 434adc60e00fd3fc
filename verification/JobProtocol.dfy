/**
 The job protocol of the execution layer as a state machine: the central priority queue, the
 worker nodes with their own queues, the hands of the threads that execute jobs, and every
 atomic step that moves a job between them.
 */
module JobProtocol {
  import opened Prelude
  import opened Tallies

  type JobId = string
  type WorkerId = string

  // ---------------------------------------------------------------- jobs

  datatype JobStatus = Pending | Queued | Running | Completed | Failed | Cancelled

  predicate Terminal(status: JobStatus) {
    status in {Completed, Failed, Cancelled}
  }

  datatype Target = Callable | Named(name: string)

  /** What a job is constructed with; only its priority can be set again. */
  datatype JobSpec = JobSpec(priority: int, createdAt: real, retries: int, capability: Option<string>,
                             target: Target, requestedWorker: Option<WorkerId>)

  /** A job record: its specification and its mutable fields. */
  datatype JobRec = JobRec(spec: JobSpec, retryCount: nat, status: JobStatus, cancelled: bool,
                           workerId: Option<WorkerId>)

  /** A job as constructed, possibly cancelled before anyone submits it. */
  function NewJob(spec: JobSpec, cancelled: bool): JobRec {
    JobRec(spec, 0, if cancelled then Cancelled else Pending, cancelled, spec.requestedWorker)
  }

  predicate RetriesLeft(rec: JobRec) {
    rec.retryCount < rec.spec.retries
  }

  /** A failed attempt that will be repeated. */
  function Requeued(rec: JobRec): JobRec {
    rec.(retryCount := rec.retryCount + 1, status := Queued)
  }

  // ---------------------------------------------------------------- central queue

  /** An entry of the central queue; `stamp` is the insertion counter that breaks ties. */
  datatype Item = Item(priority: int, createdAt: real, stamp: nat, job: JobId)

  /** Higher priority first, then older, then inserted earlier. */
  predicate Before(a: Item, b: Item) {
    || a.priority > b.priority
    || (a.priority == b.priority && a.createdAt < b.createdAt)
    || (a.priority == b.priority && a.createdAt == b.createdAt && a.stamp < b.stamp)
  }

  function Insert(queue: seq<Item>, item: Item): (r: seq<Item>)
    ensures forall x :: x in r <==> x == item || x in queue
  {
    if queue == [] || Before(item, queue[0]) then [item] + queue
    else [queue[0]] + Insert(queue[1..], item)
  }

  // ---------------------------------------------------------------- worker nodes

  datatype WorkerState = Registered | Active | Offline | Suspended | Broken

  /** `held` are the keys of the node's `assigned_jobs` dictionary, in insertion order. */
  datatype Node = Node(status: WorkerState, lastHeartbeat: real, capabilities: set<string>,
                       queue: seq<JobId>, held: seq<JobId>)

  /** A dictionary assignment `d[key] = ...`, on the keys. */
  function AddKey<T(==,!new)>(keys: seq<T>, key: T): (r: seq<T>)
    ensures forall x :: x in r <==> x == key || x in keys
    ensures Distinct(keys) ==> Distinct(r)
  {
    if key in keys then keys else keys + [key]
  }

  // ---------------------------------------------------------------- the state

  /** Who holds a job taken from a queue: a local thread or the runner of a worker node. */
  datatype Holder = Local | Remote(worker: WorkerId)
  datatype Hand = Hand(holder: Holder, job: JobId)

  /**
   `jobs` are all job objects ever submitted, `registry` the ids the engine still tracks;
   `order` lists the registered workers in dictionary order. `picked` jobs have left a queue but
   not begun, `running` ones have begun. The three multisets count events for each job.
   */
  datatype State = State(
    jobs: map<JobId, JobRec>, registry: set<JobId>,
    central: seq<Item>, stamp: nat,
    order: seq<WorkerId>, nodes: map<WorkerId, Node>,
    picked: seq<Hand>, running: seq<Hand>,
    starts: multiset<JobId>, placements: multiset<JobId>, recoveries: multiset<JobId>)

  const InitialState := State(map[], {}, [], 0, [], map[], [], [], multiset{}, multiset{}, multiset{})

  ghost predicate AllKnown(jobs: map<JobId, JobRec>, ids: seq<JobId>) {
    forall j | j in ids :: j in jobs
  }

  /** Every id in the state belongs to a submitted job, and the worker dictionary is a dictionary. */
  ghost predicate WF(s: State) {
    && s.registry <= s.jobs.Keys
    && Distinct(s.order)
    && (forall w :: w in s.order <==> w in s.nodes)
    && (forall i | i in s.central :: i.job in s.jobs)
    && (forall h | h in s.picked :: h.job in s.jobs)
    && (forall h | h in s.running :: h.job in s.jobs)
    && (forall w | w in s.nodes :: AllKnown(s.jobs, s.nodes[w].queue) && AllKnown(s.jobs, s.nodes[w].held))
  }

  function SetJob(s: State, j: JobId, rec: JobRec): State {
    s.(jobs := s.jobs[j := rec])
  }

  function SetNode(s: State, w: WorkerId, node: Node): State {
    s.(nodes := s.nodes[w := node])
  }

  /** `JobQueue.put`. */
  function PutCentral(s: State, j: JobId): (r: State)
    requires WF(s) && j in s.jobs
    ensures WF(r)
  {
    var spec := s.jobs[j].spec;
    s.(central := Insert(s.central, Item(spec.priority, spec.createdAt, s.stamp + 1, j)), stamp := s.stamp + 1)
  }

  // ---------------------------------------------------------------- routing

  predicate IsActive(nodes: map<WorkerId, Node>, w: WorkerId) {
    w in nodes && nodes[w].status == Active
  }

  /** The workers of `ws` that are active, in dictionary order. */
  function ActiveWorkers(nodes: map<WorkerId, Node>, ws: seq<WorkerId>): (r: seq<WorkerId>)
    ensures forall w :: w in r <==> w in ws && IsActive(nodes, w)
  {
    if ws == [] then []
    else (if IsActive(nodes, ws[0]) then [ws[0]] else []) + ActiveWorkers(nodes, ws[1..])
  }

  /** The workers of `ws` that report `capability`, in the same order. */
  function WithCapability(nodes: map<WorkerId, Node>, ws: seq<WorkerId>, capability: string): (r: seq<WorkerId>)
    ensures forall w :: w in r <==> w in ws && w in nodes && capability in nodes[w].capabilities
  {
    if ws == [] then []
    else (if ws[0] in nodes && capability in nodes[ws[0]].capabilities then [ws[0]] else [])
         + WithCapability(nodes, ws[1..], capability)
  }

  /** `discover_workers`: the active workers that report `capability`. */
  function Capable(nodes: map<WorkerId, Node>, order: seq<WorkerId>, capability: string): (r: seq<WorkerId>)
    ensures forall w :: w in r <==> w in order && IsActive(nodes, w) && capability in nodes[w].capabilities
  {
    WithCapability(nodes, ActiveWorkers(nodes, order), capability)
  }

  function Load(nodes: map<WorkerId, Node>, w: WorkerId): nat {
    if w in nodes then |nodes[w].held| else 0
  }

  /** The first of `ws` with the fewest assigned jobs. */
  function LeastLoaded(nodes: map<WorkerId, Node>, ws: seq<WorkerId>): (r: WorkerId)
    requires ws != []
    ensures r in ws && forall w | w in ws :: Load(nodes, r) <= Load(nodes, w)
  {
    if |ws| == 1 then ws[0]
    else
      var rest := LeastLoaded(nodes, ws[1..]);
      if Load(nodes, ws[0]) <= Load(nodes, rest) then ws[0] else rest
  }

  function RequiredCapability(spec: JobSpec): string {
    match spec.capability
    case Some(c) => c
    case None => match spec.target case Named(n) => "target:" + n case Callable => "default"
  }

  /** Candidates: those with the capability, else the "default" workers, else all active ones. */
  function Candidates(nodes: map<WorkerId, Node>, order: seq<WorkerId>, spec: JobSpec): (r: seq<WorkerId>)
    ensures forall w | w in r :: w in order && IsActive(nodes, w)
    ensures r == [] ==> forall w | w in order :: !IsActive(nodes, w)
  {
    var matching := Capable(nodes, order, RequiredCapability(spec));
    if matching != [] then matching
    else
      var general := Capable(nodes, order, "default");
      if general != [] then general else ActiveWorkers(nodes, order)
  }

  /** `assign_job_by_capability`'s choice. */
  function PickByCapability(nodes: map<WorkerId, Node>, order: seq<WorkerId>, spec: JobSpec): (r: Option<WorkerId>)
    ensures r.Some? ==> r.value in order && IsActive(nodes, r.value)
  {
    var candidates := Candidates(nodes, order, spec);
    if candidates == [] then None else Some(LeastLoaded(nodes, candidates))
  }

  /** The worker `submit_job` hands the job to, or None for the central queue. */
  function Route(nodes: map<WorkerId, Node>, order: seq<WorkerId>, rec: JobRec): (r: Option<WorkerId>)
    ensures r.Some? ==> IsActive(nodes, r.value)
  {
    if rec.workerId.Some? && IsActive(nodes, rec.workerId.value) then rec.workerId
    else if rec.spec.capability.Some? && PickByCapability(nodes, order, rec.spec).Some? then
      PickByCapability(nodes, order, rec.spec)
    else if rec.spec.target.Named? && Capable(nodes, order, "target:" + rec.spec.target.name) != [] then
      PickByCapability(nodes, order, rec.spec)
    else None
  }

  // ---------------------------------------------------------------- steps

  function Sent(rec: JobRec, w: WorkerId): JobRec {
    rec.(workerId := Some(w), status := Queued)
  }

  function Joined(node: Node, j: JobId): Node {
    node.(held := AddKey(node.held, j), queue := node.queue + [j])
  }

  /** The effect of a successful `assign_job`. */
  function PlaceOn(s: State, j: JobId, w: WorkerId): (r: State)
    requires WF(s) && j in s.jobs && w in s.nodes
    ensures WF(r)
  {
    SetNode(SetJob(s, j, Sent(s.jobs[j], w)), w, Joined(s.nodes[w], j))
  }

  function CanAssign(s: State, j: JobId, w: WorkerId): bool {
    IsActive(s.nodes, w) && j in s.registry
  }

  /** `assign_job` called from outside. */
  function Assign(s: State, j: JobId, w: WorkerId): (r: State)
    requires WF(s)
    ensures WF(r)
  {
    if CanAssign(s, j, w) then PlaceOn(s, j, w).(placements := s.placements + multiset{j}) else s
  }

  /** A job enters the registry, as queued. */
  function Admit(s: State, j: JobId, rec: JobRec): (r: State)
    requires WF(s)
    ensures WF(r)
  {
    SetJob(s, j, rec.(status := Queued)).(registry := s.registry + {j}, placements := s.placements + multiset{j})
  }

  /** `submit_job`: a known id re-submits that job, an unknown one submits `rec`. */
  function Submit(s: State, j: JobId, rec: JobRec): (r: State)
    requires WF(s)
    ensures WF(r)
  {
    var s1 := Admit(s, j, if j in s.jobs then s.jobs[j] else rec);
    match Route(s1.nodes, s1.order, s1.jobs[j])
    case Some(w) => PlaceOn(s1, j, w)
    case None => PutCentral(s1, j)
  }

  /** A local thread's `queue.get`. */
  function TakeLocal(s: State): (r: State)
    requires WF(s)
    ensures WF(r)
  {
    if s.central == [] then s
    else s.(central := s.central[1..], picked := s.picked + [Hand(Local, s.central[0].job)])
  }

  /** A picked-up job leaves its holder's hands. */
  function PutDown(s: State, k: nat): (r: State)
    requires WF(s) && k < |s.picked|
    ensures WF(r)
  {
    s.(picked := Without(s.picked, k))
  }

  /** A job whose target ended leaves its holder's hands. */
  function Stop(s: State, k: nat): (r: State)
    requires WF(s) && k < |s.running|
    ensures WF(r)
  {
    s.(running := Without(s.running, k))
  }

  /** The job's target starts to execute. */
  function StartTarget(s: State, h: Hand): (r: State)
    requires WF(s) && h.job in s.jobs
    ensures WF(r)
  {
    s.(running := s.running + [h], starts := s.starts + multiset{h.job})
  }

  /** The first half of `_process_job`: drop a cancelled job, or mark it running and start it. */
  function BeginLocal(s: State, k: nat): (r: State)
    requires WF(s)
    ensures WF(r)
  {
    if k >= |s.picked| || !s.picked[k].holder.Local? then s
    else
      var j := s.picked[k].job;
      var rec := s.jobs[j];
      var s1 := PutDown(s, k);
      if rec.cancelled || rec.status == Cancelled then SetJob(s1, j, rec.(status := Cancelled))
      else StartTarget(SetJob(s1, j, rec.(status := Running)), s.picked[k])
  }

  /** A failed local run with retries left: back into the central queue. */
  function RetryLocal(s: State, j: JobId): (r: State)
    requires WF(s) && j in s.jobs
    ensures WF(r)
  {
    PutCentral(SetJob(s, j, Requeued(s.jobs[j])), j)
  }

  /** The second half of `_process_job`, once the target has returned or raised. */
  function EndLocal(s: State, k: nat, raised: bool): (r: State)
    requires WF(s)
    ensures WF(r)
  {
    if k >= |s.running| || !s.running[k].holder.Local? then s
    else
      var j := s.running[k].job;
      var rec := s.jobs[j];
      var s1 := Stop(s, k);
      if !raised then SetJob(s1, j, rec.(status := Completed))
      else if RetriesLeft(rec) then RetryLocal(s1, j)
      else SetJob(s1, j, rec.(status := Failed))
  }

  function LetGo(node: Node, j: JobId): Node {
    node.(held := Drop(node.held, j))
  }

  /** A final report: the job leaves the node's dictionary. */
  function SettleOn(s: State, w: WorkerId, j: JobId, status: JobStatus): (r: State)
    requires WF(s) && w in s.nodes && j in s.jobs
    ensures WF(r)
  {
    SetNode(SetJob(s, j, s.jobs[j].(status := status)), w, LetGo(s.nodes[w], j))
  }

  function Again(node: Node, j: JobId): Node {
    node.(held := Drop(node.held, j) + [j], queue := node.queue + [j])
  }

  /** A failure report with retries left: the job goes to the back of the same node's queue. */
  function RetryOn(s: State, w: WorkerId, j: JobId): (r: State)
    requires WF(s) && w in s.nodes && j in s.jobs
    ensures WF(r)
  {
    SetNode(SetJob(s, j, Requeued(s.jobs[j])), w, Again(s.nodes[w], j))
  }

  /** `report_job_status`. */
  function Report(s: State, w: WorkerId, j: JobId, status: JobStatus): (r: State)
    requires WF(s)
    ensures WF(r)
  {
    if w !in s.nodes || j !in s.registry then s
    else if !Terminal(status) then SetJob(s, j, s.jobs[j].(status := status))
    else if status == Failed && RetriesLeft(s.jobs[j]) then RetryOn(s, w, j)
    else SettleOn(s, w, j, status)
  }

  /** `_fetch_job`. */
  function Fetch(s: State, w: WorkerId): (r: State)
    requires WF(s)
    ensures WF(r)
  {
    if w !in s.nodes || s.nodes[w].queue == [] then s
    else
      var node := s.nodes[w];
      SetNode(s, w, node.(queue := node.queue[1..]))
        .(picked := s.picked + [Hand(Remote(w), node.queue[0])])
  }

  /** The first half of `_execute_job`: report RUNNING, then drop a cancelled job or start it. */
  function BeginRemote(s: State, k: nat): (r: State)
    requires WF(s)
    ensures WF(r)
  {
    if k >= |s.picked| || !s.picked[k].holder.Remote? then s
    else
      var h := s.picked[k];
      var s2 := Report(PutDown(s, k), h.holder.worker, h.job, Running);
      if s2.jobs[h.job].cancelled then Report(s2, h.holder.worker, h.job, Cancelled)
      else StartTarget(s2, h)
  }

  /** The second half of `_execute_job`: report how the target ended. */
  function EndRemote(s: State, k: nat, raised: bool): (r: State)
    requires WF(s)
    ensures WF(r)
  {
    if k >= |s.running| || !s.running[k].holder.Remote? then s
    else
      var h := s.running[k];
      Report(Stop(s, k), h.holder.worker, h.job, if raised then Failed else Completed)
  }

  /** `cancel_job`. */
  function Cancel(s: State, j: JobId): (r: State)
    requires WF(s)
    ensures WF(r)
  {
    if j !in s.registry || Terminal(s.jobs[j].status) then s
    else SetJob(s, j, s.jobs[j].(cancelled := true, status := Cancelled))
  }

  /** The setter of a job's `priority`; an entry already queued keeps the priority it was put with. */
  function SetPriority(s: State, j: JobId, priority: int): (r: State)
    requires WF(s)
    ensures WF(r)
  {
    if j !in s.jobs then s else SetJob(s, j, s.jobs[j].(spec := s.jobs[j].spec.(priority := priority)))
  }

  /** `cancel_job` returns True. */
  predicate CancelSucceeds(s: State, j: JobId) {
    j in s.registry && j in s.jobs && !Terminal(s.jobs[j].status)
  }

  function Register(s: State, w: WorkerId, capabilities: set<string>, now: real): (r: State)
    requires WF(s)
    ensures WF(r)
  {
    s.(order := AddKey(s.order, w), nodes := s.nodes[w := Node(Registered, now, capabilities, [], [])])
  }

  function Unregister(s: State, w: WorkerId): (r: State)
    requires WF(s)
    ensures WF(r)
  {
    s.(order := Drop(s.order, w), nodes := s.nodes - {w})
  }

  function Beaten(node: Node, now: real): Node {
    node.(lastHeartbeat := now, status := if node.status in {Registered, Offline} then Active else node.status)
  }

  /** `send_heartbeat`: revives a REGISTERED or OFFLINE node, and no other. */
  function Heartbeat(s: State, w: WorkerId, now: real): (r: State)
    requires WF(s)
    ensures WF(r)
  {
    if w !in s.nodes then s else SetNode(s, w, Beaten(s.nodes[w], now))
  }

  /** `pause` and `resume` of a worker's runner. */
  function SetStatus(s: State, w: WorkerId, status: WorkerState): (r: State)
    requires WF(s)
    ensures WF(r)
  {
    if w !in s.nodes then s else SetNode(s, w, s.nodes[w].(status := status))
  }

  // ---------------------------------------------------------------- the monitor

  /** Put each job of `ids` back into the central queue. */
  function Requeue(s: State, ids: seq<JobId>): (r: State)
    requires WF(s) && AllKnown(s.jobs, ids)
    ensures WF(r)
    decreases |ids|
  {
    if ids == [] then s
    else
      var j := ids[0];
      var s1 := SetJob(s, j, s.jobs[j].(status := Queued, workerId := None));
      Requeue(PutCentral(s1, j).(recoveries := s.recoveries + multiset{j}), ids[1..])
  }

  function Evacuated(node: Node): Node {
    node.(status := Offline, held := [], queue := [])
  }

  /** One node's turn in `monitor_workers`. */
  function SweepNode(s: State, w: WorkerId, now: real, timeout: real): (r: State)
    requires WF(s)
    ensures WF(r)
  {
    if w !in s.nodes then s
    else
      var node := s.nodes[w];
      if node.status == Active && now - node.lastHeartbeat >= timeout then
        SetNode(s, w, node.(status := Suspended))
      else if node.status == Suspended && now - node.lastHeartbeat >= timeout * 2.0 then
        Requeue(SetNode(s, w, Evacuated(node)), node.held)
      else s
  }

  /** The rest of the engine's and manager's bulk operations. */
  function ClearJobs(s: State): (r: State)
    requires WF(s)
    ensures WF(r)
  {
    s.(registry := set j | j in s.registry && !Terminal(s.jobs[j].status))
  }

  function DropWorkers(s: State): (r: State)
    requires WF(s)
    ensures WF(r)
  {
    s.(order := [], nodes := map[])
  }

  function ClearQueue(s: State): (r: State)
    requires WF(s)
    ensures WF(r)
  {
    s.(central := [])
  }

  function SweepFrom(s: State, ws: seq<WorkerId>, now: real, timeout: real): (r: State)
    requires WF(s)
    ensures WF(r)
    decreases |ws|
  {
    if ws == [] then s else SweepFrom(SweepNode(s, ws[0], now, timeout), ws[1..], now, timeout)
  }

  // ---------------------------------------------------------------- runs

  datatype Op =
    | DoSubmit(job: JobId, spec: JobSpec, cancelledBefore: bool)
    | DoAssign(job: JobId, worker: WorkerId)
    | DoTakeLocal
    | DoBeginLocal(hand: nat)
    | DoEndLocal(hand: nat, raised: bool)
    | DoFetch(worker: WorkerId)
    | DoBeginRemote(hand: nat)
    | DoEndRemote(hand: nat, raised: bool)
    | DoReport(worker: WorkerId, job: JobId, status: JobStatus)
    | DoCancel(job: JobId)
    | DoSetPriority(job: JobId, priority: int)
    | DoRegister(worker: WorkerId, capabilities: set<string>, now: real)
    | DoUnregister(worker: WorkerId)
    | DoHeartbeat(worker: WorkerId, now: real)
    | DoPause(worker: WorkerId)
    | DoResume(worker: WorkerId)
    | DoSweep(now: real, timeout: real)
    | DoClearJobs
    | DoDropWorkers
    | DoClearQueue

  /** One atomic step of the whole system; a step that does not apply changes nothing. */
  function Step(s: State, op: Op): (r: State)
    requires WF(s)
    ensures WF(r)
  {
    match op
    case DoSubmit(j, spec, c) => Submit(s, j, NewJob(spec, c))
    case DoAssign(j, w) => Assign(s, j, w)
    case DoTakeLocal => TakeLocal(s)
    case DoBeginLocal(k) => BeginLocal(s, k)
    case DoEndLocal(k, raised) => EndLocal(s, k, raised)
    case DoFetch(w) => Fetch(s, w)
    case DoBeginRemote(k) => BeginRemote(s, k)
    case DoEndRemote(k, raised) => EndRemote(s, k, raised)
    case DoReport(w, j, status) => Report(s, w, j, status)
    case DoCancel(j) => Cancel(s, j)
    case DoSetPriority(j, priority) => SetPriority(s, j, priority)
    case DoRegister(w, capabilities, now) => Register(s, w, capabilities, now)
    case DoUnregister(w) => Unregister(s, w)
    case DoHeartbeat(w, now) => Heartbeat(s, w, now)
    case DoPause(w) => SetStatus(s, w, Suspended)
    case DoResume(w) => SetStatus(s, w, Active)
    case DoSweep(now, timeout) => SweepFrom(s, s.order, now, timeout)
    case DoClearJobs => ClearJobs(s)
    case DoDropWorkers => DropWorkers(s)
    case DoClearQueue => ClearQueue(s)
  }

  function Run(s: State, ops: seq<Op>): (r: State)
    requires WF(s)
    ensures WF(r)
    decreases |ops|
  {
    if ops == [] then s else Run(Step(s, ops[0]), ops[1..])
  }
}
