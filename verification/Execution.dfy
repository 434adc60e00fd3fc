/**
 The execution layer's objects: jobs, the central queue, worker nodes, and the engine with its
 worker manager. Every method is proved to perform one step of `JobProtocol`.
 A job id stands for the job object wherever the program stores a reference to one.
 */
module Execution {
  import opened Prelude
  import opened JobProtocol

  class Job {
    const id: JobId
    var spec: JobSpec
    var retryCount: nat
    var status: JobStatus
    var cancelled: bool
    var workerId: Option<WorkerId>

    ghost function View(): JobRec
      reads this
    {
      JobRec(spec, retryCount, status, cancelled, workerId)
    }

    constructor (id: JobId, spec: JobSpec)
      ensures this.id == id && View() == NewJob(spec, false)
    {
      this.id := id;
      this.spec := spec;
      retryCount, status, cancelled, workerId := 0, Pending, false, spec.requestedWorker;
    }

    method SendTo(worker: WorkerId)
      modifies this
      ensures View() == Sent(old(View()), worker)
    {
      workerId := Some(worker);
      status := Queued;
    }

    method Requeue()
      modifies this
      ensures View() == Requeued(old(View()))
    {
      retryCount := retryCount + 1;
      status := Queued;
    }

    /** The setter of `priority`. */
    method SetPriority(priority: int)
      modifies this
      ensures View() == old(View()).(spec := old(spec).(priority := priority))
    {
      spec := spec.(priority := priority);
    }

    /** Refused once the job has finished; otherwise the flag is set and the job counts as CANCELLED. */
    method Cancel() returns (ok: bool)
      modifies this
      ensures ok <==> !Terminal(old(status))
      ensures View() == if ok then old(View()).(cancelled := true, status := Cancelled) else old(View())
    {
      if status == Completed || status == Failed || status == Cancelled {
        return false;
      }
      cancelled := true;
      status := Cancelled;
      return true;
    }
  }

  class JobQueue {
    var items: seq<Item>
    var counter: nat

    constructor ()
      ensures items == [] && counter == 0
    {
      items, counter := [], 0;
    }

    method Put(job: Job)
      modifies this
      ensures counter == old(counter) + 1
      ensures items == Insert(old(items), Item(job.spec.priority, job.spec.createdAt, counter, job.id))
    {
      counter := counter + 1;
      items := Insert(items, Item(job.spec.priority, job.spec.createdAt, counter, job.id));
    }

    method Get() returns (job: Option<JobId>)
      modifies this
      ensures counter == old(counter)
      ensures old(items) == [] ==> job == None && items == []
      ensures old(items) != [] ==> job == Some(old(items)[0].job) && items == old(items)[1..]
    {
      if items == [] {
        return None;
      }
      job := Some(items[0].job);
      items := items[1..];
    }
  }

  class WorkerNode {
    const id: WorkerId
    var status: WorkerState
    var lastHeartbeat: real
    var capabilities: set<string>
    var queue: seq<JobId>
    var held: seq<JobId>

    ghost function View(): Node
      reads this
    {
      Node(status, lastHeartbeat, capabilities, queue, held)
    }

    constructor (id: WorkerId, capabilities: set<string>, now: real)
      ensures this.id == id && View() == Node(Registered, now, capabilities, [], [])
    {
      this.id := id;
      this.capabilities := capabilities;
      status, lastHeartbeat, queue, held := Registered, now, [], [];
    }

    method Accept(job: JobId)
      modifies this
      ensures View() == Joined(old(View()), job)
    {
      if job !in held {
        held := held + [job];
      }
      queue := queue + [job];
    }

    method Release(job: JobId)
      modifies this
      ensures View() == LetGo(old(View()), job)
    {
      held := Drop(held, job);
    }

    /** The job leaves the dictionary and enters it again, at the end, and the queue with it. */
    method Readmit(job: JobId)
      modifies this
      ensures View() == Again(old(View()), job)
    {
      Release(job);
      Accept(job);
    }

    method Evacuate()
      modifies this
      ensures View() == Evacuated(old(View()))
    {
      status, held, queue := Offline, [], [];
    }

    method UpdateHeartbeat(now: real)
      modifies this
      ensures View() == Beaten(old(View()), now)
    {
      lastHeartbeat := now;
      if status == Registered || status == Offline {
        status := Active;
      }
    }
  }

  /** The engine together with the worker manager it shares a client with. */
  class ExecutionCore {
    var registry: map<JobId, Job>
    const queue: JobQueue
    var order: seq<WorkerId>
    var workers: map<WorkerId, WorkerNode>

    // every job object ever submitted: what a job id refers to, tracked by the registry or not
    var world: map<JobId, Job>
    // the jobs in the threads' hands, and the event counters
    ghost var picked: seq<Hand>
    ghost var running: seq<Hand>
    ghost var starts: multiset<JobId>
    ghost var placements: multiset<JobId>
    ghost var recoveries: multiset<JobId>

    ghost function Footprint(): set<object>
      reads this
    {
      {this, queue} + world.Values + workers.Values
    }

    ghost function NodesView(): map<WorkerId, Node>
      reads this`workers, workers.Values
    {
      map w | w in workers :: workers[w].View()
    }

    ghost function JobsView(): map<JobId, JobRec>
      reads this`world, world.Values
    {
      map j | j in world :: world[j].View()
    }

    ghost function View(): State
      reads Footprint()
    {
      State(JobsView(), registry.Keys, queue.items, queue.counter, order, NodesView(), picked, running, starts, placements, recoveries)
    }

    /** Every dictionary files its objects under their own ids. */
    ghost predicate Filed()
      reads this`world, this`registry, this`workers
    {
      && (forall j | j in world :: world[j].id == j)
      && (forall w | w in workers :: workers[w].id == w)
      && (forall j | j in registry :: j in world && world[j] == registry[j])
    }

    ghost predicate Valid()
      reads Footprint()
    {
      Filed() && WF(View())
    }

    constructor ()
      ensures Valid() && View() == InitialState && fresh(queue)
    {
      registry, order, workers := map[], [], map[];
      queue := new JobQueue();
      world, picked, running := map[], [], [];
      starts, placements, recoveries := multiset{}, multiset{}, multiset{};
    }

    // ------------------------------------------------------------ discovery

    method ListActive() returns (active: seq<WorkerId>)
      requires forall w | w in order :: w in workers
      ensures active == ActiveWorkers(NodesView(), order)
    {
      active := [];
      for i := 0 to |order|
        invariant active == ActiveWorkers(NodesView(), order[..i])
      {
        OneMoreActive(NodesView(), order[..i], order[i]);
        assert order[..i + 1] == order[..i] + [order[i]];
        if workers[order[i]].status == Active {
          active := active + [order[i]];
        }
      }
      assert order[..|order|] == order;
    }

    /** The loop of `discover_workers` over the active workers. */
    method SelectCapable(active: seq<WorkerId>, capability: string) returns (matching: seq<WorkerId>)
      requires forall w | w in active :: w in workers
      ensures matching == WithCapability(NodesView(), active, capability)
    {
      matching := [];
      for i := 0 to |active|
        invariant matching == WithCapability(NodesView(), active[..i], capability)
      {
        OneMoreWorker(NodesView(), active[..i], active[i], capability);
        assert active[..i + 1] == active[..i] + [active[i]];
        if capability in workers[active[i]].capabilities {
          matching := matching + [active[i]];
        }
      }
      assert active[..|active|] == active;
    }

    method DiscoverWorkers(capability: string) returns (matching: seq<WorkerId>)
      requires forall w | w in order :: w in workers
      ensures matching == Capable(NodesView(), order, capability)
    {
      var active := ListActive();
      matching := SelectCapable(active, capability);
    }

    /** `min(..., key=...)`: the first candidate with the fewest assigned jobs. */
    method Least(candidates: seq<WorkerId>) returns (best: WorkerId)
      requires candidates != [] && forall w | w in candidates :: w in workers
      ensures best == LeastLoaded(NodesView(), candidates)
    {
      best := candidates[0];
      for i := 1 to |candidates|
        invariant best in workers && best == LeastLoaded(NodesView(), candidates[..i])
      {
        OneMoreCandidate(NodesView(), candidates[..i], candidates[i]);
        assert candidates[..i + 1] == candidates[..i] + [candidates[i]];
        if |workers[candidates[i]].held| < |workers[best].held| {
          best := candidates[i];
        }
      }
      assert candidates[..|candidates|] == candidates;
    }

    method FindCandidates(spec: JobSpec) returns (candidates: seq<WorkerId>)
      requires forall w | w in order :: w in workers
      ensures candidates == Candidates(NodesView(), order, spec)
    {
      var required := RequiredCapability(spec);
      candidates := DiscoverWorkers(required);
      if candidates != [] {
        return;
      }
      candidates := DiscoverWorkers("default");
      if candidates != [] {
        return;
      }
      candidates := ListActive();
    }

    /** The choice made by `assign_job_by_capability`. */
    method ChooseWorker(spec: JobSpec) returns (choice: Option<WorkerId>)
      requires forall w | w in order :: w in workers
      ensures choice == PickByCapability(NodesView(), order, spec)
    {
      var candidates := FindCandidates(spec);
      if candidates == [] {
        return None;
      }
      var best := Least(candidates);
      return Some(best);
    }

    // ------------------------------------------------------------ placing jobs

    /** The objects involved stay the same; only their fields may have changed. */
    twostate predicate SameObjects()
      reads this
    {
      world == old(world) && workers == old(workers) && registry == old(registry) && order == old(order)
    }

    /** Writing to one job's fields changes that job's record only. */
    twostate lemma OneJobChanged(j: JobId)
      requires world == old(world) && j in world
      requires forall i | i in world && i != j :: unchanged(world[i])
      ensures JobsView() == old(JobsView())[j := world[j].View()]
    {
    }

    twostate lemma JobFiled(job: Job)
      requires world == old(world)[job.id := job]
      requires forall j | j in old(world) && j != job.id :: unchanged(old(world)[j])
      ensures JobsView() == old(JobsView())[job.id := job.View()]
    {
    }

    twostate lemma NodesUntouched()
      requires workers == old(workers) && forall w | w in workers :: unchanged(workers[w])
      ensures NodesView() == old(NodesView())
    {
    }

    twostate lemma NodeFiled(new node: WorkerNode)
      requires workers == old(workers)[node.id := node]
      requires forall v | v in old(workers) && v != node.id :: unchanged(old(workers)[v])
      ensures NodesView() == old(NodesView())[node.id := node.View()]
    {
    }

    twostate lemma NodeDropped(w: WorkerId)
      requires workers == old(workers) - {w} && forall v | v in workers :: unchanged(workers[v])
      ensures NodesView() == old(NodesView()) - {w}
    {
    }

    twostate lemma JobsUntouched()
      requires world == old(world) && forall j | j in world :: unchanged(world[j])
      ensures JobsView() == old(JobsView())
    {
    }

    twostate lemma OneNodeChanged(w: WorkerId)
      requires workers == old(workers) && w in workers
      requires forall v | v in workers && v != w :: unchanged(workers[v])
      ensures NodesView() == old(NodesView())[w := workers[w].View()]
    {
    }

    /** The body of `assign_job`. */
    method AssignJob(j: JobId, w: WorkerId) returns (ok: bool)
      requires Valid()
      modifies world.Values, workers.Values
      ensures Valid() && SameObjects()
      ensures ok <==> CanAssign(old(View()), j, w)
      ensures View() == if ok then PlaceOn(old(View()), j, w) else old(View())
    {
      if w !in workers {
        return false;
      }
      var node := workers[w];
      if node.status != Active {
        return false;
      }
      if j !in registry {
        return false;
      }
      assert JobsView()[j] == registry[j].View() && NodesView()[w] == node.View();
      node.Accept(j);
      registry[j].SendTo(w);
      OneJobChanged(j);
      OneNodeChanged(w);
      ghost var after := PlaceOn(old(View()), j, w);
      assert WF(after);
      assert View() == after;
      return true;
    }

    ghost method CountPlacement(j: JobId)
      requires Valid()
      modifies this`placements
      ensures Valid()
      ensures View() == old(View()).(placements := old(placements) + multiset{j})
    {
      ghost var after := View().(placements := placements + multiset{j});
      assert WF(after);
      placements := placements + multiset{j};
      assert JobsView() == after.jobs && NodesView() == after.nodes;
      assert View() == after;
    }

    /** `assign_job` called from outside. */
    method AssignManually(j: JobId, w: WorkerId) returns (ok: bool)
      requires Valid()
      modifies this`placements, world.Values, workers.Values
      ensures Valid() && SameObjects()
      ensures ok <==> CanAssign(old(View()), j, w)
      ensures View() == Assign(old(View()), j, w)
    {
      ok := AssignJob(j, w);
      if ok {
        CountPlacement(j);
      }
    }

    /** The first part of `submit_job`: the job enters the registry. */
    method AdmitJob(job: Job)
      requires Filed()
      requires job.id in world ==> world[job.id] == job
      requires job.id !in world ==> job !in world.Values
      modifies this`registry, this`world, this`placements, job
      ensures Filed()
      ensures world == old(world)[job.id := job] && registry == old(registry)[job.id := job]
      ensures placements == old(placements) + multiset{job.id}
      ensures job.View() == old(job.View()).(status := Queued)
      ensures JobsView() == old(JobsView())[job.id := job.View()] && NodesView() == old(NodesView())
    {
      job.status := Queued;
      registry := registry[job.id := job];
      world := world[job.id := job];
      placements := placements + multiset{job.id};
      JobFiled(job);
      NodesUntouched();
    }

    /** `queue.put` of a job of this engine. */
    method Enqueue(j: JobId)
      requires Valid() && j in world
      modifies queue
      ensures Valid() && SameObjects()
      ensures View() == PutCentral(old(View()), j)
    {
      assert JobsView()[j] == world[j].View();
      queue.Put(world[j]);
      ghost var after := PutCentral(old(View()), j);
      assert JobsView() == after.jobs && NodesView() == after.nodes;
      assert WF(after);
      assert View() == after;
    }

    /** `submit_job` of a new job object or of one submitted before. */
    method SubmitJob(job: Job)
      requires Valid()
      requires job.id in world ==> world[job.id] == job
      requires job.id !in world ==> job !in world.Values
      modifies this`registry, this`world, this`placements, queue, job, world.Values, workers.Values
      ensures Valid() && workers == old(workers) && order == old(order)
      ensures world == old(world)[job.id := job] && registry == old(registry)[job.id := job]
      ensures View() == Submit(old(View()), job.id, old(job.View()))
    {
      assert job.id in world ==> JobsView()[job.id] == job.View();
      ghost var s1 := Admit(View(), job.id, job.View());
      assert WF(s1);
      AdmitJob(job);
      assert View() == s1;
      PlaceJob(job);
    }

    /** The rest of `submit_job`: to a worker, or else into the central queue. */
    method PlaceJob(job: Job)
      requires Valid() && job.id in registry && registry[job.id] == job
      modifies queue, world.Values, workers.Values
      ensures Valid() && SameObjects()
      ensures View() == match old(Route(NodesView(), order, job.View()))
                        case Some(w) => PlaceOn(old(View()), job.id, w)
                        case None => PutCentral(old(View()), job.id)
    {
      ghost var before := View();
      var target := FindRoute(job);
      assert Valid() && View() == before;
      if target.Some? {
        var placed := AssignJob(job.id, target.value);
      } else {
        Enqueue(job.id);
      }
    }

    /** The routing decision of `submit_job`. */
    method FindRoute(job: Job) returns (target: Option<WorkerId>)
      requires forall w | w in order :: w in workers
      ensures target == Route(NodesView(), order, job.View())
    {
      if job.workerId.Some? && job.workerId.value in workers && workers[job.workerId.value].status == Active {
        assert IsActive(NodesView(), job.workerId.value);
        return job.workerId;
      }
      assert job.workerId.Some? ==> !IsActive(NodesView(), job.workerId.value);
      if job.spec.capability.Some? {
        target := ChooseWorker(job.spec);
        if target.Some? {
          return target;
        }
      }
      target := RouteByTarget(job.spec);
    }

    /** The last attempt: a worker that reports the named target as a capability. */
    method RouteByTarget(spec: JobSpec) returns (target: Option<WorkerId>)
      requires forall w | w in order :: w in workers
      ensures target == if spec.target.Named? && Capable(NodesView(), order, "target:" + spec.target.name) != []
                        then PickByCapability(NodesView(), order, spec) else None
    {
      if spec.target.Named? {
        var candidates := DiscoverWorkers("target:" + spec.target.name);
        if candidates != [] {
          target := ChooseWorker(spec);
          return target;
        }
      }
      return None;
    }

    // ------------------------------------------------------------ hands

    /** A job leaves its holder's hands before it has begun. */
    ghost method LayDown(k: nat)
      requires Valid() && k < |picked|
      modifies this`picked
      ensures Valid() && View() == PutDown(old(View()), k)
    {
      ghost var after := PutDown(View(), k);
      assert WF(after);
      picked := Without(picked, k);
      assert JobsView() == after.jobs && NodesView() == after.nodes;
      assert View() == after;
    }

    /** A job whose target ended leaves its holder's hands. */
    ghost method LetEnd(k: nat)
      requires Valid() && k < |running|
      modifies this`running
      ensures Valid() && View() == Stop(old(View()), k)
    {
      ghost var after := Stop(View(), k);
      assert WF(after);
      running := Without(running, k);
      assert JobsView() == after.jobs && NodesView() == after.nodes;
      assert View() == after;
    }

    /** The target of the job in hand `h` starts. */
    ghost method LetStart(h: Hand)
      requires Valid() && h.job in world
      modifies this`running, this`starts
      ensures Valid() && View() == StartTarget(old(View()), h)
    {
      ghost var after := StartTarget(View(), h);
      assert WF(after);
      running := running + [h];
      starts := starts + multiset{h.job};
      assert JobsView() == after.jobs && NodesView() == after.nodes;
      assert View() == after;
    }

    /** A job taken from a queue is in hand `h`. */
    ghost method PickUp(h: Hand)
      requires Valid() && h.job in world
      modifies this`picked
      ensures Valid() && View() == old(View()).(picked := old(picked) + [h])
    {
      ghost var after := View().(picked := picked + [h]);
      assert WF(after);
      picked := picked + [h];
      assert JobsView() == after.jobs && NodesView() == after.nodes;
      assert View() == after;
    }

    /** A job's status is written. */
    method SetJobStatus(j: JobId, status: JobStatus)
      requires Valid() && j in world
      modifies world[j]
      ensures Valid() && SameObjects()
      ensures View() == SetJob(old(View()), j, old(View()).jobs[j].(status := status))
    {
      ghost var after := SetJob(View(), j, View().jobs[j].(status := status));
      assert WF(after);
      assert JobsView()[j] == world[j].View();
      world[j].status := status;
      OneJobChanged(j);
      assert NodesView() == after.nodes;
      assert View() == after;
    }

    // ------------------------------------------------------------ local threads

    /** One poll of a local thread. */
    method TakeJob() returns (job: Option<Job>)
      requires Valid()
      modifies queue, this`picked
      ensures Valid() && SameObjects()
      ensures View() == TakeLocal(old(View()))
      ensures job.Some? <==> old(queue.items) != []
      ensures job.Some? ==> picked == old(picked) + [Hand(Local, job.value.id)] && job.value.id in world && world[job.value.id] == job.value
    {
      ghost var before := View();
      if queue.items == [] {
        return None;
      }
      assert before.central[0] in before.central;
      var id := TakeFirst();
      PickUp(Hand(Local, id));
      return Some(world[id]);
    }

    method TakeFirst() returns (id: JobId)
      requires Valid() && queue.items != []
      modifies queue
      ensures Valid() && SameObjects()
      ensures id == old(queue.items)[0].job && id in world
      ensures View() == old(View()).(central := old(View()).central[1..])
    {
      ghost var after := View().(central := queue.items[1..]);
      assert queue.items[0] in View().central;
      assert WF(after);
      var taken := queue.Get();
      assert JobsView() == after.jobs && NodesView() == after.nodes;
      assert View() == after;
      return taken.value;
    }

    /** The first half of `_process_job`, for the job in hand `k`; `started` says its target runs. */
    method BeginProcessing(job: Job, ghost k: nat) returns (started: bool)
      requires Valid() && job.id in world && world[job.id] == job
      requires k < |picked| && picked[k] == Hand(Local, job.id)
      modifies job, this`picked, this`running, this`starts
      ensures Valid() && SameObjects()
      ensures View() == BeginLocal(old(View()), k)
      ensures started <==> !old(job.cancelled) && old(job.status) != Cancelled
      ensures job.status == if started then Running else Cancelled
    {
      ghost var h := picked[k];
      assert View().jobs[job.id] == job.View();
      LayDown(k);
      if job.cancelled || job.status == Cancelled {
        SetJobStatus(job.id, Cancelled);
        return false;
      }
      SetJobStatus(job.id, Running);
      LetStart(h);
      return true;
    }

    /** The second half of `_process_job`, once the target has returned or raised. */
    method FinishProcessing(job: Job, ghost k: nat, raised: bool)
      requires Valid() && job.id in world && world[job.id] == job
      requires k < |running| && running[k] == Hand(Local, job.id)
      modifies job, queue, this`running
      ensures Valid() && SameObjects()
      ensures View() == EndLocal(old(View()), k, raised)
      ensures !raised ==> job.status == Completed && job.retryCount == old(job.retryCount)
      ensures raised && old(job.retryCount) < job.spec.retries ==> job.status == Queued && job.retryCount == old(job.retryCount) + 1
      ensures raised && old(job.retryCount) >= job.spec.retries ==> job.status == Failed && job.retryCount == old(job.retryCount)
    {
      assert View().jobs[job.id] == job.View();
      LetEnd(k);
      if !raised {
        SetJobStatus(job.id, Completed);
      } else if job.retryCount < job.spec.retries {
        CountRetry(job.id);
        Enqueue(job.id);
      } else {
        SetJobStatus(job.id, Failed);
      }
      assert View().jobs[job.id] == job.View();
    }

    /** A failed attempt is counted and the job queued again. */
    method CountRetry(j: JobId)
      requires Valid() && j in world
      modifies world[j]
      ensures Valid() && SameObjects()
      ensures View() == SetJob(old(View()), j, Requeued(old(View()).jobs[j]))
    {
      ghost var after := SetJob(View(), j, Requeued(View().jobs[j]));
      assert WF(after);
      assert JobsView()[j] == world[j].View();
      world[j].Requeue();
      OneJobChanged(j);
      assert NodesView() == after.nodes;
      assert View() == after;
    }

    // ------------------------------------------------------------ reports and remote execution

    /** The job leaves the node's dictionary. */
    method ReleaseJob(w: WorkerId, j: JobId)
      requires Valid() && w in workers
      modifies workers[w]
      ensures Valid() && SameObjects()
      ensures View() == SetNode(old(View()), w, LetGo(old(View()).nodes[w], j))
    {
      ghost var after := SetNode(View(), w, LetGo(View().nodes[w], j));
      assert View().nodes[w] == workers[w].View();
      assert WF(after);
      workers[w].Release(j);
      OneNodeChanged(w);
      assert JobsView() == after.jobs;
      assert View() == after;
    }

    /** The job leaves the node's dictionary and comes back, into its queue too. */
    method ReadmitJob(w: WorkerId, j: JobId)
      requires Valid() && w in workers && j in world
      modifies workers[w]
      ensures Valid() && SameObjects()
      ensures View() == SetNode(old(View()), w, Again(old(View()).nodes[w], j))
    {
      ghost var after := SetNode(View(), w, Again(View().nodes[w], j));
      assert View().nodes[w] == workers[w].View();
      assert WF(after);
      workers[w].Readmit(j);
      OneNodeChanged(w);
      assert JobsView() == after.jobs;
      assert View() == after;
    }

    /** The retry of a reported failure. */
    method RetryJob(w: WorkerId, j: JobId)
      requires Valid() && w in workers && j in world
      modifies world[j], workers[w]
      ensures Valid() && SameObjects()
      ensures View() == RetryOn(old(View()), w, j)
    {
      CountRetry(j);
      ReadmitJob(w, j);
    }

    /** `report_job_status`. */
    method ReportJobStatus(w: WorkerId, j: JobId, status: JobStatus) returns (ok: bool)
      requires Valid()
      modifies world.Values, workers.Values
      ensures Valid() && SameObjects()
      ensures ok <==> w in workers && j in registry
      ensures View() == Report(old(View()), w, j, status)
    {
      if w !in workers {
        return false;
      }
      if j !in registry {
        return false;
      }
      ApplyReport(w, j, status);
      return true;
    }

    /** The part of `report_job_status` for a known worker and a tracked job. */
    method ApplyReport(w: WorkerId, j: JobId, status: JobStatus)
      requires Valid() && w in workers && j in registry
      modifies world.Values, workers.Values
      ensures Valid() && SameObjects()
      ensures View() == Report(old(View()), w, j, status)
    {
      ReportCases(View(), w, j, status);
      SetJobStatus(j, status);
      assert View().jobs[j] == registry[j].View();
      if status == Failed && registry[j].retryCount < registry[j].spec.retries {
        RetryJob(w, j);
      } else if status == Completed || status == Failed || status == Cancelled {
        ReleaseJob(w, j);
      }
    }

    /** `_fetch_job`. */
    method FetchJob(w: WorkerId) returns (job: Option<Job>)
      requires Valid()
      modifies workers.Values, this`picked
      ensures Valid() && SameObjects()
      ensures View() == Fetch(old(View()), w)
      ensures job.Some? <==> w in workers && old(workers[w].queue) != []
      ensures job.Some? ==> picked == old(picked) + [Hand(Remote(w), job.value.id)] && job.value.id in world && world[job.value.id] == job.value
    {
      if w !in workers {
        return None;
      }
      assert View().nodes[w] == workers[w].View();
      if workers[w].queue == [] {
        return None;
      }
      var id := TakeNext(w);
      PickUp(Hand(Remote(w), id));
      return Some(world[id]);
    }

    method TakeNext(w: WorkerId) returns (id: JobId)
      requires Valid() && w in workers && workers[w].queue != []
      modifies workers[w]
      ensures Valid() && SameObjects()
      ensures id == old(workers[w].queue)[0] && id in world
      ensures var node := old(View()).nodes[w];
        node.queue == old(workers[w].queue) && View() == SetNode(old(View()), w, node.(queue := node.queue[1..]))
    {
      assert View().nodes[w] == workers[w].View();
      ghost var node := View().nodes[w];
      ghost var after := SetNode(View(), w, node.(queue := node.queue[1..]));
      assert node.queue[0] in node.queue;
      assert WF(after);
      id := workers[w].queue[0];
      workers[w].queue := workers[w].queue[1..];
      OneNodeChanged(w);
      assert JobsView() == after.jobs;
      assert View() == after;
    }

    /** The first half of `_execute_job`, for the job in hand `k`; `started` says its target runs. */
    method BeginExecution(w: WorkerId, job: Job, ghost k: nat) returns (started: bool)
      requires Valid() && job.id in world && world[job.id] == job
      requires k < |picked| && picked[k] == Hand(Remote(w), job.id)
      modifies world.Values, workers.Values, this`picked, this`running, this`starts
      ensures Valid() && SameObjects()
      ensures View() == BeginRemote(old(View()), k)
      ensures started <==> !old(job.cancelled)
    {
      ghost var h, s0 := picked[k], View();
      ghost var s2 := Report(PutDown(s0, k), w, job.id, Running);
      ghost var after := BeginRemote(s0, k);
      assert after == if s2.jobs[job.id].cancelled then Report(s2, w, job.id, Cancelled) else StartTarget(s2, h);
      assert s0.jobs[job.id] == job.View() && s2.jobs[job.id].cancelled == s0.jobs[job.id].cancelled;
      LayDown(k);
      var known := ReportJobStatus(w, job.id, Running);
      assert View() == s2 && s2.jobs[job.id] == job.View();
      started := HeedCancel(w, job, h);
      assert View() == after;
    }

    /** The check of the flag right before the target would start. */
    method HeedCancel(w: WorkerId, job: Job, ghost h: Hand) returns (started: bool)
      requires Valid() && job.id in world && world[job.id] == job && h == Hand(Remote(w), job.id)
      modifies world.Values, workers.Values, this`running, this`starts
      ensures Valid() && SameObjects()
      ensures started <==> !old(job.cancelled)
      ensures View() == if started then StartTarget(old(View()), h) else Report(old(View()), w, job.id, Cancelled)
    {
      if job.cancelled {
        var known := ReportJobStatus(w, job.id, Cancelled);
        return false;
      }
      LetStart(h);
      return true;
    }

    /** The second half of `_execute_job`: report how the target ended. */
    method FinishExecution(w: WorkerId, job: Job, ghost k: nat, raised: bool)
      requires Valid() && job.id in world && world[job.id] == job
      requires k < |running| && running[k] == Hand(Remote(w), job.id)
      modifies world.Values, workers.Values, this`running
      ensures Valid() && SameObjects()
      ensures View() == EndRemote(old(View()), k, raised)
    {
      LetEnd(k);
      var known := ReportJobStatus(w, job.id, if raised then Failed else Completed);
    }

    // ------------------------------------------------------------ cancellation and node management

    /** `cancel_job`. */
    method CancelJob(j: JobId) returns (ok: bool)
      requires Valid()
      modifies world.Values
      ensures Valid() && SameObjects()
      ensures View() == JobProtocol.Cancel(old(View()), j)
      ensures ok <==> CancelSucceeds(old(View()), j)
    {
      if j !in registry {
        return false;
      }
      ghost var after := JobProtocol.Cancel(View(), j);
      assert View().jobs[j] == world[j].View();
      assert WF(after);
      ok := registry[j].Cancel();
      OneJobChanged(j);
      assert NodesView() == after.nodes;
      assert JobsView() == after.jobs;
      assert View() == after;
    }

    /** The setter of a job's priority; the queue is not told. */
    method SetJobPriority(j: JobId, priority: int)
      requires Valid() && j in world
      modifies world[j]
      ensures Valid() && SameObjects()
      ensures View() == JobProtocol.SetPriority(old(View()), j, priority)
    {
      ghost var after := JobProtocol.SetPriority(View(), j, priority);
      assert WF(after);
      assert JobsView()[j] == world[j].View();
      world[j].SetPriority(priority);
      OneJobChanged(j);
      assert NodesView() == after.nodes;
      assert View() == after;
    }

    method RegisterWorker(w: WorkerId, capabilities: set<string>, now: real)
      requires Valid()
      modifies this`workers, this`order
      ensures Valid() && world == old(world) && registry == old(registry)
      ensures workers.Keys == old(workers).Keys + {w} && fresh(workers[w])
      ensures View() == Register(old(View()), w, capabilities, now)
    {
      ghost var after := Register(View(), w, capabilities, now);
      assert WF(after);
      var node := new WorkerNode(w, capabilities, now);
      order := AddKey(order, w);
      workers := workers[w := node];
      JobsUntouched();
      NodeFiled(node);
      assert View() == after;
    }

    method UnregisterWorker(w: WorkerId)
      requires Valid()
      modifies this`workers, this`order, workers.Values
      ensures Valid() && world == old(world) && registry == old(registry) && workers == old(workers) - {w}
      ensures View() == Unregister(old(View()), w)
      ensures w in old(workers) ==> old(workers)[w].status == Offline
    {
      if w in workers {
        var node := workers[w];
        RemoveWorker(w);
        ghost var after := View();
        assert forall v | v in workers :: workers[v].id != node.id;
        label removed:
        node.status := Offline;
        JobsUntouched@removed();
        NodesUntouched@removed();
        assert View() == after;
      } else {
        RemoveWorker(w);
      }
    }

    /** `_workers.pop(worker_id, None)`. */
    method RemoveWorker(w: WorkerId)
      requires Valid()
      modifies this`workers, this`order
      ensures Valid() && world == old(world) && registry == old(registry) && workers == old(workers) - {w}
      ensures View() == Unregister(old(View()), w)
    {
      ghost var after := Unregister(View(), w);
      assert WF(after);
      order := Drop(order, w);
      workers := workers - {w};
      JobsUntouched();
      NodeDropped(w);
      assert View() == after;
    }

    method SendHeartbeat(w: WorkerId, now: real) returns (ok: bool)
      requires Valid()
      modifies workers.Values
      ensures Valid() && SameObjects()
      ensures ok <==> w in workers
      ensures View() == Heartbeat(old(View()), w, now)
    {
      if w !in workers {
        return false;
      }
      ghost var after := Heartbeat(View(), w, now);
      assert View().nodes[w] == workers[w].View();
      assert WF(after);
      workers[w].UpdateHeartbeat(now);
      OneNodeChanged(w);
      assert JobsView() == after.jobs;
      assert View() == after;
      return true;
    }

    /** `pause` and `resume` of a runner, as far as its node is concerned. */
    method SetWorkerStatus(w: WorkerId, status: WorkerState)
      requires Valid()
      modifies workers.Values
      ensures Valid() && SameObjects()
      ensures View() == SetStatus(old(View()), w, status)
    {
      if w in workers {
        MarkNode(w, status);
      }
    }

    method MarkNode(w: WorkerId, status: WorkerState)
      requires Valid() && w in workers
      modifies workers[w]
      ensures Valid() && SameObjects()
      ensures View() == SetStatus(old(View()), w, status)
    {
      ghost var after := SetStatus(View(), w, status);
      assert View().nodes[w] == workers[w].View();
      assert WF(after);
      workers[w].status := status;
      OneNodeChanged(w);
      assert JobsView() == after.jobs;
      assert View() == after;
    }

    method PauseWorker(w: WorkerId)
      requires Valid()
      modifies workers.Values
      ensures Valid() && SameObjects() && View() == SetStatus(old(View()), w, Suspended)
    {
      SetWorkerStatus(w, Suspended);
    }

    method ResumeWorker(w: WorkerId)
      requires Valid()
      modifies workers.Values
      ensures Valid() && SameObjects() && View() == SetStatus(old(View()), w, Active)
    {
      SetWorkerStatus(w, Active);
    }

    // ------------------------------------------------------------ the monitor

    /** One job of a dead node goes back to the central queue. */
    method RecoverJob(j: JobId)
      requires Valid() && j in world
      modifies world[j], queue, this`recoveries
      ensures Valid() && SameObjects()
      ensures var s1 := SetJob(old(View()), j, old(View()).jobs[j].(status := Queued, workerId := None));
        WF(s1) && View() == PutCentral(s1, j).(recoveries := old(recoveries) + multiset{j})
    {
      ResetJob(j);
      Enqueue(j);
      CountRecovery(j);
    }

    method ResetJob(j: JobId)
      requires Valid() && j in world
      modifies world[j]
      ensures Valid() && SameObjects()
      ensures View() == SetJob(old(View()), j, old(View()).jobs[j].(status := Queued, workerId := None))
    {
      ghost var after := SetJob(View(), j, View().jobs[j].(status := Queued, workerId := None));
      assert WF(after);
      assert JobsView()[j] == world[j].View();
      world[j].status, world[j].workerId := Queued, None;
      OneJobChanged(j);
      assert NodesView() == after.nodes;
      assert View() == after;
    }

    ghost method CountRecovery(j: JobId)
      requires Valid()
      modifies this`recoveries
      ensures Valid()
      ensures View() == old(View()).(recoveries := old(recoveries) + multiset{j})
    {
      ghost var after := View().(recoveries := recoveries + multiset{j});
      assert WF(after);
      recoveries := recoveries + multiset{j};
      assert JobsView() == after.jobs && NodesView() == after.nodes;
      assert View() == after;
    }

    method EmptyNode(w: WorkerId)
      requires Valid() && w in workers
      modifies workers[w]
      ensures Valid() && SameObjects()
      ensures View() == SetNode(old(View()), w, Evacuated(old(View()).nodes[w]))
    {
      ghost var after := SetNode(View(), w, Evacuated(View().nodes[w]));
      assert View().nodes[w] == workers[w].View();
      assert WF(after);
      workers[w].Evacuate();
      OneNodeChanged(w);
      assert JobsView() == after.jobs;
      assert View() == after;
    }

    /** `_recover_worker_jobs`, for a node just marked OFFLINE. */
    method RecoverWorkerJobs(w: WorkerId)
      requires Valid() && w in workers
      modifies world.Values, workers[w], queue, this`recoveries
      ensures Valid() && SameObjects()
      ensures View() == Requeue(SetNode(old(View()), w, Evacuated(old(View()).nodes[w])), old(View()).nodes[w].held)
    {
      assert View().nodes[w] == workers[w].View();
      var unfinished := workers[w].held;
      assert AllKnown(View().jobs, unfinished);
      EmptyNode(w);
      ghost var start := View();
      assert unfinished[0..] == unfinished;
      for i := 0 to |unfinished|
        invariant Valid() && SameObjects()
        invariant AllKnown(View().jobs, unfinished[i..])
        invariant Requeue(View(), unfinished[i..]) == Requeue(start, unfinished)
      {
        assert unfinished[i..][0] == unfinished[i] && unfinished[i..][1..] == unfinished[i + 1..];
        assert unfinished[i] in unfinished[i..];
        RecoverJob(unfinished[i]);
      }
    }

    const heartbeatTimeout: real := 6.0

    /** One node's turn in `monitor_workers`. */
    method MonitorWorker(w: WorkerId, now: real)
      requires Valid() && w in workers
      modifies world.Values, workers[w], queue, this`recoveries
      ensures Valid() && SameObjects()
      ensures View() == SweepNode(old(View()), w, now, heartbeatTimeout)
    {
      assert View().nodes[w] == workers[w].View();
      if workers[w].status == Active {
        if now - workers[w].lastHeartbeat >= heartbeatTimeout {
          MarkNode(w, Suspended);
        }
      } else if workers[w].status == Suspended {
        if now - workers[w].lastHeartbeat >= heartbeatTimeout * 2.0 {
          RecoverWorkerJobs(w);
        }
      }
    }

    /** `monitor_workers`, with one clock reading. */
    method MonitorWorkers(now: real)
      requires Valid()
      modifies world.Values, workers.Values, queue, this`recoveries
      ensures Valid() && SameObjects()
      ensures View() == SweepFrom(old(View()), order, now, heartbeatTimeout)
    {
      ghost var start := View();
      assert order[0..] == order;
      for i := 0 to |order|
        invariant Valid() && SameObjects()
        invariant SweepFrom(View(), order[i..], now, heartbeatTimeout) == SweepFrom(start, order, now, heartbeatTimeout)
      {
        assert order[i..][0] == order[i] && order[i..][1..] == order[i + 1..];
        assert order[i] in order;
        MonitorWorker(order[i], now);
      }
    }

    // ------------------------------------------------------------ bulk operations

    /** `clear_jobs`. */
    method ClearFinished()
      requires Valid()
      modifies this`registry
      ensures Valid() && world == old(world) && workers == old(workers) && order == old(order)
      ensures View() == ClearJobs(old(View()))
    {
      ghost var after := ClearJobs(View());
      ghost var tracked := registry;
      assert forall j | j in tracked :: View().jobs[j].status == tracked[j].status;
      assert after.registry == set j | j in tracked && !Terminal(tracked[j].status);
      assert WF(after);
      registry := map j | j in registry && registry[j].status in {Pending, Queued, Running} :: registry[j];
      assert registry.Keys == after.registry;
      JobsUntouched();
      NodesUntouched();
      assert View() == after;
    }

    /** The end of the manager's `shutdown`. */
    method DropAllWorkers()
      requires Valid()
      modifies this`workers, this`order
      ensures Valid() && world == old(world) && registry == old(registry)
      ensures View() == DropWorkers(old(View()))
    {
      ghost var after := DropWorkers(View());
      order, workers := [], map[];
      assert JobsView() == after.jobs && NodesView() == after.nodes;
      assert View() == after;
    }
  }

  /** A report writes the status and then treats the job as the record now says. */
  lemma ReportCases(s: State, w: WorkerId, j: JobId, status: JobStatus)
    requires WF(s) && w in s.nodes && j in s.registry
    ensures var s1 := SetJob(s, j, s.jobs[j].(status := status));
      WF(s1) && Report(s, w, j, status) ==
        if status == Failed && RetriesLeft(s1.jobs[j]) then RetryOn(s1, w, j)
        else if Terminal(status) then SetNode(s1, w, LetGo(s1.nodes[w], j))
        else s1
  {
    RetryAfterWrite(s, w, j, status);
  }

  /** A retry does not depend on the status written just before it. */
  lemma RetryAfterWrite(s: State, w: WorkerId, j: JobId, status: JobStatus)
    requires WF(s) && w in s.nodes && j in s.jobs
    ensures RetryOn(SetJob(s, j, s.jobs[j].(status := status)), w, j) == RetryOn(s, w, j)
  {
    var rec := s.jobs[j].(status := status);
    assert Requeued(rec) == Requeued(s.jobs[j]);
    assert s.jobs[j := rec][j := Requeued(rec)] == s.jobs[j := Requeued(rec)];
  }

  lemma {:induction false} OneMoreWorker(nodes: map<WorkerId, Node>, ws: seq<WorkerId>, w: WorkerId, capability: string)
    requires w in nodes
    ensures WithCapability(nodes, ws + [w], capability)
         == WithCapability(nodes, ws, capability) + (if capability in nodes[w].capabilities then [w] else [])
  {
    if ws != [] {
      assert (ws + [w])[1..] == ws[1..] + [w];
      OneMoreWorker(nodes, ws[1..], w, capability);
    }
  }

  lemma {:induction false} OneMoreActive(nodes: map<WorkerId, Node>, ws: seq<WorkerId>, w: WorkerId)
    ensures ActiveWorkers(nodes, ws + [w]) == ActiveWorkers(nodes, ws) + (if IsActive(nodes, w) then [w] else [])
  {
    if ws != [] {
      assert (ws + [w])[1..] == ws[1..] + [w];
      OneMoreActive(nodes, ws[1..], w);
    }
  }

  /** A later candidate is chosen only if it has fewer jobs than the best so far. */
  lemma {:induction false} OneMoreCandidate(nodes: map<WorkerId, Node>, ws: seq<WorkerId>, w: WorkerId)
    requires ws != []
    ensures LeastLoaded(nodes, ws + [w])
         == if Load(nodes, w) < Load(nodes, LeastLoaded(nodes, ws)) then w else LeastLoaded(nodes, ws)
  {
    if |ws| == 1 {
      assert (ws + [w])[1..] == [w];
    } else {
      assert (ws + [w])[1..] == ws[1..] + [w];
      OneMoreCandidate(nodes, ws[1..], w);
    }
  }
}
