/** What each step of the protocol does to records, queues, nodes and hands, in terms of the state before it. */
module JobLaws {
  import opened Prelude
  import opened Tallies
  import opened JobProtocol
  import opened JobBudget
  import opened JobPlaces
  import opened JobRouting

  // ---------------------------------------------------------------- what stays

  /** No job but `j` has another record, or is tracked where it was not, or the other way round. */
  ghost predicate OnlyJob(s: State, r: State, j: JobId) {
    forall i | i != j ::
      && (i in r.jobs <==> i in s.jobs)
      && (i in s.jobs ==> r.jobs[i] == s.jobs[i])
      && (i in r.registry <==> i in s.registry)
  }

  /** No node but `w` differs, and that one only in its queue and the jobs it holds. */
  ghost predicate OnlyNode(s: State, r: State, w: WorkerId) {
    && r.order == s.order && r.nodes.Keys == s.nodes.Keys && w in s.nodes
    && (forall v | v in s.nodes && v != w :: r.nodes[v] == s.nodes[v])
    && r.nodes[w].status == s.nodes[w].status
    && r.nodes[w].lastHeartbeat == s.nodes[w].lastHeartbeat
    && r.nodes[w].capabilities == s.nodes[w].capabilities
  }

  ghost predicate SameNodes(s: State, r: State) {
    r.order == s.order && r.nodes == s.nodes
  }

  ghost predicate SameQueue(s: State, r: State) {
    r.central == s.central && r.stamp == s.stamp
  }

  ghost predicate SameHands(s: State, r: State) {
    r.picked == s.picked && r.running == s.running && r.starts == s.starts
  }

  // ---------------------------------------------------------------- the queue and the dictionaries

  /** `queue` with `item` put ahead of the first entry it beats. */
  ghost predicate Inserted(queue: seq<Item>, item: Item, r: seq<Item>, at: nat) {
    && at <= |queue| && r == queue[..at] + [item] + queue[at..]
    && (forall i | 0 <= i < at :: !Before(item, queue[i]))
    && (at < |queue| ==> Before(item, queue[at]))
  }

  ghost predicate InsertedOnce(queue: seq<Item>, item: Item, r: seq<Item>) {
    exists at: nat :: Inserted(queue, item, r, at)
  }

  lemma {:induction false} InsertMeans(queue: seq<Item>, item: Item) returns (at: nat)
    ensures Inserted(queue, item, Insert(queue, item), at)
  {
    at := 0;
    if queue != [] && !Before(item, queue[0]) {
      var k := InsertMeans(queue[1..], item);
      at := k + 1;
      assert queue[..at] == [queue[0]] + queue[1..][..k];
      forall i | 0 <= i < at ensures !Before(item, queue[i]) {
        assert i > 0 ==> queue[i] == queue[1..][i - 1];
      }
    }
  }

  lemma {:induction false} DropConcat<T(!new)>(a: seq<T>, b: seq<T>, key: T)
    ensures Drop(a + b, key) == Drop(a, key) + Drop(b, key)
  {
    if a == [] {
      assert a + b == b;
    } else {
      assert (a + b)[1..] == a[1..] + b;
      DropConcat(a[1..], b, key);
    }
  }

  lemma {:induction false} DropAbsent<T(!new)>(keys: seq<T>, key: T)
    requires key !in keys
    ensures Drop(keys, key) == keys
  {
    if keys != [] {
      DropAbsent(keys[1..], key);
    }
  }

  /** Taking a key out of a dictionary keeps the others in their order. */
  lemma DropMiddle<T(!new)>(before: seq<T>, key: T, after: seq<T>)
    requires key !in before && key !in after
    ensures Drop(before + ([key] + after), key) == before + after
  {
    DropConcat(before, [key] + after, key);
    DropConcat([key], after, key);
    DropAbsent(before, key);
    DropAbsent(after, key);
    assert [key][1..] == [];
  }

  /** `j` enters the central queue with its own priority and age, stamped later than every entry before. */
  ghost predicate Queues(s: State, r: State, j: JobId, rec: JobRec) {
    && r.stamp == s.stamp + 1
    && InsertedOnce(s.central, Item(rec.spec.priority, rec.spec.createdAt, s.stamp + 1, j), r.central)
  }

  lemma PutCentralMeans(s: State, j: JobId)
    requires WF(s) && j in s.jobs
    ensures Queues(s, PutCentral(s, j), j, s.jobs[j])
  {
    var spec := s.jobs[j].spec;
    var at := InsertMeans(s.central, Item(spec.priority, spec.createdAt, s.stamp + 1, j));
  }

  // ---------------------------------------------------------------- local runs

  /** A local thread that finds its job cancelled finishes it as CANCELLED; otherwise the target starts. */
  lemma LocalRunBegins(s: State, k: nat, j: JobId)
    requires WF(s) && k < |s.picked| && s.picked[k] == Hand(Local, j)
    ensures var r := BeginLocal(s, k);
      && OnlyJob(s, r, j) && SameNodes(s, r) && SameQueue(s, r) && r.registry == s.registry
      && r.picked == s.picked[..k] + s.picked[k + 1..]
      && j in r.jobs
      && if s.jobs[j].cancelled || s.jobs[j].status == Cancelled then
           && r.jobs[j] == s.jobs[j].(status := Cancelled)
           && r.running == s.running && r.starts == s.starts
         else
           && r.jobs[j] == s.jobs[j].(status := Running)
           && r.running == s.running + [Hand(Local, j)] && r.starts == s.starts + multiset{j}
  {
  }

  /**
   A local run that returns leaves its job COMPLETED; one that raises puts it back into the central
   queue as long as retries are left, and leaves it FAILED when none are.
   */
  lemma LocalRunEnds(s: State, k: nat, j: JobId, raised: bool)
    requires WF(s) && k < |s.running| && s.running[k] == Hand(Local, j)
    ensures var r, rec := EndLocal(s, k, raised), s.jobs[j];
      && OnlyJob(s, r, j) && SameNodes(s, r) && r.registry == s.registry
      && r.picked == s.picked && r.running == s.running[..k] + s.running[k + 1..] && r.starts == s.starts
      && j in r.jobs
      && (!raised ==> r.jobs[j] == rec.(status := Completed) && SameQueue(s, r))
      && (raised && rec.retryCount < rec.spec.retries ==>
            && r.jobs[j] == rec.(status := Queued, retryCount := rec.retryCount + 1)
            && Queues(s, r, j, rec)
            && Sum(r.central, IsItemOf(j)) == Sum(s.central, IsItemOf(j)) + 1)
      && (raised && rec.retryCount >= rec.spec.retries ==> r.jobs[j] == rec.(status := Failed) && SameQueue(s, r))
  {
    var s1 := SetJob(Stop(s, k), j, Requeued(s.jobs[j]));
    PutCentralMeans(s1, j);
    InsertSum(s.central, Item(s.jobs[j].spec.priority, s.jobs[j].spec.createdAt, s.stamp + 1, j), IsItemOf(j));
  }

  // ---------------------------------------------------------------- reports and remote runs

  /** `j` has left the dictionary of node `w`, whose queue is as before. */
  ghost predicate LetsGo(s: State, r: State, w: WorkerId, j: JobId) {
    && OnlyNode(s, r, w)
    && r.nodes[w].queue == s.nodes[w].queue
    && r.nodes[w].held == Drop(s.nodes[w].held, j)
  }

  /** `j` is now the last in the queue of node `w`, and the last among the jobs it holds. */
  ghost predicate GoesAgain(s: State, r: State, w: WorkerId, j: JobId) {
    && OnlyNode(s, r, w)
    && r.nodes[w].queue == s.nodes[w].queue + [j]
    && r.nodes[w].held == Drop(s.nodes[w].held, j) + [j]
  }

  /** What a report that is heard makes of the job's record. */
  function Reported(rec: JobRec, status: JobStatus): JobRec {
    if status == Failed && rec.retryCount < rec.spec.retries then rec.(status := Queued, retryCount := rec.retryCount + 1)
    else rec.(status := status)
  }

  lemma ReportRetries(s: State, w: WorkerId, j: JobId)
    requires WF(s) && w in s.nodes && j in s.jobs
    ensures GoesAgain(s, RetryOn(s, w, j), w, j)
  {
  }

  lemma ReportSettles(s: State, w: WorkerId, j: JobId, status: JobStatus)
    requires WF(s) && w in s.nodes && j in s.jobs
    ensures LetsGo(s, SettleOn(s, w, j, status), w, j)
  {
  }

  lemma ReportRecords(s: State, w: WorkerId, j: JobId, status: JobStatus)
    requires WF(s) && w in s.nodes && j in s.registry
    ensures var r := Report(s, w, j, status);
      && OnlyJob(s, r, j) && SameQueue(s, r) && SameHands(s, r) && r.registry == s.registry
      && j in r.jobs && r.jobs[j] == Reported(s.jobs[j], status)
  {
  }

  /**
   A report is lost when the manager does not know the worker or the engine does not track the job.
   Otherwise a failure with retries left queues the job on the same worker again, any other outcome
   is written and lets the job go, and anything else is only written.
   */
  lemma ReportMeans(s: State, w: WorkerId, j: JobId, status: JobStatus)
    requires WF(s)
    ensures var r := Report(s, w, j, status);
      if w !in s.nodes || j !in s.registry then r == s
      else
        && OnlyJob(s, r, j) && SameQueue(s, r) && SameHands(s, r) && r.registry == s.registry
        && j in r.jobs && r.jobs[j] == Reported(s.jobs[j], status)
        && if status == Failed && s.jobs[j].retryCount < s.jobs[j].spec.retries then GoesAgain(s, r, w, j)
           else if status == Completed || status == Failed || status == Cancelled then LetsGo(s, r, w, j)
           else SameNodes(s, r)
  {
    if w in s.nodes && j in s.registry {
      ReportRecords(s, w, j, status);
      ReportRetries(s, w, j);
      ReportSettles(s, w, j, status);
    }
  }

  /** The runner of node `w` takes the first job of its queue; with nothing queued nothing happens. */
  lemma FetchMeans(s: State, w: WorkerId)
    requires WF(s)
    ensures var r := Fetch(s, w);
      if w !in s.nodes || s.nodes[w].queue == [] then r == s
      else
        && r.jobs == s.jobs && r.registry == s.registry && SameQueue(s, r) && OnlyNode(s, r, w)
        && s.nodes[w].queue == [s.nodes[w].queue[0]] + r.nodes[w].queue && r.nodes[w].held == s.nodes[w].held
        && r.picked == s.picked + [Hand(Remote(w), s.nodes[w].queue[0])]
        && r.running == s.running && r.starts == s.starts
  {
  }

  /**
   A runner that finds its job cancelled reports CANCELLED and starts nothing; otherwise the target
   starts, whether or not the report that it runs is heard.
   */
  lemma RemoteRunBegins(s: State, k: nat, w: WorkerId, j: JobId)
    requires WF(s) && k < |s.picked| && s.picked[k] == Hand(Remote(w), j)
    ensures var r, heard := BeginRemote(s, k), w in s.nodes && j in s.registry;
      && OnlyJob(s, r, j) && SameQueue(s, r) && r.registry == s.registry
      && r.picked == s.picked[..k] + s.picked[k + 1..]
      && j in r.jobs
      && if s.jobs[j].cancelled then
           && r.running == s.running && r.starts == s.starts
           && if heard then r.jobs[j] == s.jobs[j].(status := Cancelled) && LetsGo(s, r, w, j)
              else r.jobs[j] == s.jobs[j] && SameNodes(s, r)
         else
           && r.running == s.running + [Hand(Remote(w), j)] && r.starts == s.starts + multiset{j}
           && r.jobs[j] == (if heard then s.jobs[j].(status := Running) else s.jobs[j]) && SameNodes(s, r)
  {
    var s1 := PutDown(s, k);
    ReportMeans(s1, w, j, Running);
    ReportMeans(Report(s1, w, j, Running), w, j, Cancelled);
  }

  /**
   A remote run that returns leaves its job COMPLETED; one that raises queues it on the same worker again
   as long as retries are left, and leaves it FAILED when none are. Nothing of it is heard when the
   worker is gone or the job no longer tracked.
   */
  lemma RemoteRunEnds(s: State, k: nat, w: WorkerId, j: JobId, raised: bool)
    requires WF(s) && k < |s.running| && s.running[k] == Hand(Remote(w), j)
    ensures var r, rec := EndRemote(s, k, raised), s.jobs[j];
      && OnlyJob(s, r, j) && SameQueue(s, r) && r.registry == s.registry
      && r.picked == s.picked && r.running == s.running[..k] + s.running[k + 1..] && r.starts == s.starts
      && j in r.jobs
      && if w !in s.nodes || j !in s.registry then r.jobs[j] == rec && SameNodes(s, r)
         else if !raised then r.jobs[j] == rec.(status := Completed) && LetsGo(s, r, w, j)
         else if rec.retryCount < rec.spec.retries then
           r.jobs[j] == rec.(status := Queued, retryCount := rec.retryCount + 1) && GoesAgain(s, r, w, j)
         else r.jobs[j] == rec.(status := Failed) && LetsGo(s, r, w, j)
  {
    ReportMeans(Stop(s, k), w, j, if raised then Failed else Completed);
  }

  // ---------------------------------------------------------------- submitting, assigning, cancelling

  /** `j` is now the last in the queue of node `w`, which holds it and is its worker. */
  ghost predicate Joins(s: State, r: State, w: WorkerId, j: JobId) {
    && OnlyNode(s, r, w)
    && r.nodes[w].queue == s.nodes[w].queue + [j]
    && r.nodes[w].held == (if j in s.nodes[w].held then s.nodes[w].held else s.nodes[w].held + [j])
  }

  /** A job is admitted as QUEUED and handed to one worker, or put into the central queue. */
  ghost predicate Delivered(s: State, r: State, j: JobId, rec: JobRec, to: Option<WorkerId>) {
    && OnlyJob(s, r, j) && SameHands(s, r)
    && r.registry == s.registry + {j} && j in r.jobs
    && match to
       case Some(w) => r.jobs[j] == rec.(status := Queued, workerId := Some(w)) && Joins(s, r, w, j) && SameQueue(s, r)
       case None => r.jobs[j] == rec.(status := Queued) && Queues(s, r, j, rec) && SameNodes(s, r)
  }

  lemma DeliveredToWorker(s: State, j: JobId, rec: JobRec, w: WorkerId)
    requires WF(s) && w in s.nodes
    ensures Delivered(s, PlaceOn(Admit(s, j, rec), j, w), j, rec, Some(w))
  {
  }

  lemma DeliveredToQueue(s: State, j: JobId, rec: JobRec)
    requires WF(s)
    ensures Delivered(s, PutCentral(Admit(s, j, rec), j), j, rec, None)
  {
    var at := InsertMeans(s.central, Item(rec.spec.priority, rec.spec.createdAt, s.stamp + 1, j));
    assert Inserted(s.central, Item(rec.spec.priority, rec.spec.createdAt, s.stamp + 1, j), PutCentral(Admit(s, j, rec), j).central, at);
  }

  /** Where a submitted job ends up; an id that is known submits that job again. */
  lemma SubmitMeans(s: State, j: JobId, rec: JobRec) returns (to: Option<WorkerId>)
    requires WF(s)
    ensures var known := if j in s.jobs then s.jobs[j] else rec;
      RoutedTo(s.nodes, s.order, known, to) && Delivered(s, Submit(s, j, rec), j, known, to)
  {
    var known := if j in s.jobs then s.jobs[j] else rec;
    to := Route(s.nodes, s.order, known.(status := Queued));
    RouteMeans(s.nodes, s.order, known.(status := Queued));
    assert RoutedTo(s.nodes, s.order, known, to);
    match to {
      case Some(w) => DeliveredToWorker(s, j, known, w);
      case None => DeliveredToQueue(s, j, known);
    }
  }

  /** A manual assignment is refused unless the worker is active and the job tracked. */
  lemma AssignMeans(s: State, j: JobId, w: WorkerId)
    requires WF(s)
    ensures var r := Assign(s, j, w);
      if w in s.nodes && s.nodes[w].status == Active && j in s.registry then
        && OnlyJob(s, r, j) && SameHands(s, r) && SameQueue(s, r) && r.registry == s.registry && j in r.jobs
        && r.jobs[j] == s.jobs[j].(status := Queued, workerId := Some(w)) && Joins(s, r, w, j)
      else r == s
  {
  }

  /** Only a tracked job that is not finished can be cancelled; its flag and its status are all that changes. */
  lemma CancelMeans(s: State, j: JobId)
    requires WF(s)
    ensures var r := Cancel(s, j);
      if j in s.registry && s.jobs[j].status != Completed && s.jobs[j].status != Failed && s.jobs[j].status != Cancelled then
        && OnlyJob(s, r, j) && SameHands(s, r) && SameQueue(s, r) && SameNodes(s, r) && r.registry == s.registry
        && j in r.jobs && r.jobs[j] == s.jobs[j].(cancelled := true, status := Cancelled)
      else r == s
  {
  }

  // ---------------------------------------------------------------- registering and clearing

  ghost predicate SameWork(s: State, r: State) {
    r.jobs == s.jobs && r.registry == s.registry && SameQueue(s, r) && SameHands(s, r)
  }

  /** A worker that registers is a new node, in the place of one of that id or behind all others; one that leaves is gone. */
  lemma RegisteringMeans(s: State, w: WorkerId, capabilities: set<string>, now: real)
    requires WF(s)
    ensures var r := Register(s, w, capabilities, now);
      && SameWork(s, r) && r.nodes.Keys == s.nodes.Keys + {w} && r.nodes[w] == Node(Registered, now, capabilities, [], [])
      && (forall v | v in s.nodes && v != w :: r.nodes[v] == s.nodes[v])
      && r.order == if w in s.nodes then s.order else s.order + [w]
    ensures var r := Unregister(s, w);
      && SameWork(s, r) && r.nodes.Keys == s.nodes.Keys - {w} && (forall v | v in r.nodes :: r.nodes[v] == s.nodes[v])
      && forall before, after | w !in before && w !in after && s.order == before + ([w] + after) :: r.order == before + after
  {
    forall before, after | w !in before && w !in after && s.order == before + ([w] + after)
      ensures Unregister(s, w).order == before + after
    {
      DropMiddle(before, w, after);
    }
  }

  /** Clearing the finished jobs keeps exactly the others tracked; every record stays. */
  lemma ClearingMeans(s: State, j: JobId)
    requires WF(s) && j in s.jobs
    ensures var r := ClearJobs(s);
      && r.jobs == s.jobs && SameNodes(s, r) && SameQueue(s, r) && SameHands(s, r)
      && (j in r.registry <==>
            j in s.registry && s.jobs[j].status != Completed && s.jobs[j].status != Failed && s.jobs[j].status != Cancelled)
  {
  }

  /** Pausing and resuming a runner set its node's status, whatever that was, and nothing else. */
  lemma PausingMeans(s: State, w: WorkerId)
    requires WF(s) && w in s.nodes
    ensures var paused := Step(s, DoPause(w)); SameWork(s, paused) && paused.nodes == s.nodes[w := s.nodes[w].(status := Suspended)]
    ensures var resumed := Step(s, DoResume(w)); SameWork(s, resumed) && resumed.nodes == s.nodes[w := s.nodes[w].(status := Active)]
  {
  }

  // ---------------------------------------------------------------- heartbeats and the monitor

  /** A heartbeat is noted for every known worker, and makes a REGISTERED or OFFLINE one ACTIVE. */
  lemma HeartbeatMeans(s: State, w: WorkerId, now: real)
    requires WF(s)
    ensures var r := Heartbeat(s, w, now);
      && r.jobs == s.jobs && r.registry == s.registry && SameQueue(s, r) && SameHands(s, r) && r.order == s.order
      && r.nodes.Keys == s.nodes.Keys && (forall v | v in s.nodes && v != w :: r.nodes[v] == s.nodes[v])
      && (w in s.nodes ==>
            && r.nodes[w].lastHeartbeat == now
            && (s.nodes[w].status == Registered || s.nodes[w].status == Offline ==> r.nodes[w].status == Active)
            && (s.nodes[w].status in {Active, Suspended, Broken} ==> r.nodes[w].status == s.nodes[w].status)
            && r.nodes[w].queue == s.nodes[w].queue && r.nodes[w].held == s.nodes[w].held
            && r.nodes[w].capabilities == s.nodes[w].capabilities)
  {
  }

  /** A SUSPENDED worker silent for twice the timeout: the sweep takes its jobs away. */
  predicate Lost(node: Node, now: real, timeout: real) {
    node.status == Suspended && now - node.lastHeartbeat >= 2.0 * timeout
  }

  /** An ACTIVE worker silent for the timeout. */
  predicate Late(node: Node, now: real, timeout: real) {
    node.status == Active && now - node.lastHeartbeat >= timeout
  }

  /** What one sweep makes of a node: late ones are suspended, lost ones OFFLINE and empty, no other touched. */
  ghost predicate Swept(before: Node, after: Node, now: real, timeout: real) {
    && after.lastHeartbeat == before.lastHeartbeat && after.capabilities == before.capabilities
    && (Late(before, now, timeout) ==>
          after.status == Suspended && after.queue == before.queue && after.held == before.held)
    && (Lost(before, now, timeout) ==> after.status == Offline && after.queue == [] && after.held == [])
    && (!Late(before, now, timeout) && !Lost(before, now, timeout) ==> after == before)
  }

  /** How many lost workers of the dictionary hold `j`. */
  function LostHolds(nodes: map<WorkerId, Node>, now: real, timeout: real, j: JobId): WorkerId -> nat {
    (w: WorkerId) => if w in nodes && Lost(nodes[w], now, timeout) then Sum(nodes[w].held, IsId(j)) else 0
  }

  /** The first job of `ids` goes back into the central queue. */
  function RequeueFirst(s: State, ids: seq<JobId>): (r: State)
    requires WF(s) && AllKnown(s.jobs, ids) && ids != []
    ensures WF(r) && AllKnown(r.jobs, ids[1..])
    ensures Requeue(s, ids) == Requeue(r, ids[1..])
    ensures r.jobs == s.jobs[ids[0] := s.jobs[ids[0]].(status := Queued, workerId := None)]
    ensures SameNodes(s, r) && SameHands(s, r) && r.registry == s.registry && r.stamp == s.stamp + 1
    ensures r.central == Insert(s.central, Item(s.jobs[ids[0]].spec.priority, s.jobs[ids[0]].spec.createdAt, s.stamp + 1, ids[0]))
  {
    var s1 := SetJob(s, ids[0], s.jobs[ids[0]].(status := Queued, workerId := None));
    PutCentral(s1, ids[0]).(recoveries := s.recoveries + multiset{ids[0]})
  }

  lemma {:induction false} RequeueFrame(s: State, ids: seq<JobId>)
    requires WF(s) && AllKnown(s.jobs, ids)
    ensures var r := Requeue(s, ids);
      SameNodes(s, r) && SameHands(s, r) && r.registry == s.registry && r.jobs.Keys == s.jobs.Keys && r.stamp == s.stamp + |ids|
    decreases |ids|
  {
    if ids != [] {
      RequeueFrame(RequeueFirst(s, ids), ids[1..]);
    }
  }

  /** Each job of `ids` gets one entry in the central queue for each time it is listed. */
  lemma {:induction false} RequeueCount(s: State, ids: seq<JobId>, j: JobId)
    requires WF(s) && AllKnown(s.jobs, ids)
    ensures Sum(Requeue(s, ids).central, IsItemOf(j)) == Sum(s.central, IsItemOf(j)) + Sum(ids, IsId(j))
    decreases |ids|
  {
    if ids != [] {
      var r := RequeueFirst(s, ids);
      InsertSum(s.central, Item(s.jobs[ids[0]].spec.priority, s.jobs[ids[0]].spec.createdAt, s.stamp + 1, ids[0]), IsItemOf(j));
      assert Sum(r.central, IsItemOf(j)) == Sum(s.central, IsItemOf(j)) + IsId(j)(ids[0]);
      RequeueCount(r, ids[1..], j);
    }
  }

  /** They are QUEUED then, and of no worker; no other record is touched. */
  lemma {:induction false} RequeueRecords(s: State, ids: seq<JobId>, j: JobId)
    requires WF(s) && AllKnown(s.jobs, ids) && j in s.jobs
    ensures var r := Requeue(s, ids);
      j in r.jobs && r.jobs[j] == if j in ids then s.jobs[j].(status := Queued, workerId := None) else s.jobs[j]
    decreases |ids|
  {
    if ids != [] {
      RequeueRecords(RequeueFirst(s, ids), ids[1..], j);
      assert j in ids <==> j == ids[0] || j in ids[1..];
    }
  }

  lemma {:induction false} RequeueKeeps(s: State, ids: seq<JobId>, i: Item)
    requires WF(s) && AllKnown(s.jobs, ids) && i in s.central
    ensures i in Requeue(s, ids).central
    decreases |ids|
  {
    if ids != [] {
      RequeueKeeps(RequeueFirst(s, ids), ids[1..], i);
    }
  }

  lemma RequeueHead(s: State, ids: seq<JobId>)
    requires WF(s) && AllKnown(s.jobs, ids) && ids != []
    ensures Item(s.jobs[ids[0]].spec.priority, s.jobs[ids[0]].spec.createdAt, s.stamp + 1, ids[0]) in Requeue(s, ids).central
  {
    var item := Item(s.jobs[ids[0]].spec.priority, s.jobs[ids[0]].spec.createdAt, s.stamp + 1, ids[0]);
    var r := RequeueFirst(s, ids);
    assert item in r.central;
    RequeueKeeps(r, ids[1..], item);
  }

  function EntryOf(s: State, j: JobId, stamp: nat): Item
    requires j in s.jobs
  {
    Item(s.jobs[j].spec.priority, s.jobs[j].spec.createdAt, stamp, j)
  }

  lemma EntryStays(s: State, ids: seq<JobId>, j: JobId, stamp: nat)
    requires WF(s) && AllKnown(s.jobs, ids) && ids != [] && j in s.jobs
    ensures j in RequeueFirst(s, ids).jobs && EntryOf(RequeueFirst(s, ids), j, stamp) == EntryOf(s, j, stamp)
  {
  }

  /** The entries carry the jobs' own priority and age, and are stamped in the order in which the node held the jobs. */
  lemma {:induction false} RequeueStamps(s: State, ids: seq<JobId>, p: nat)
    requires WF(s) && AllKnown(s.jobs, ids) && p < |ids|
    ensures EntryOf(s, ids[p], s.stamp + 1 + p) in Requeue(s, ids).central
    decreases |ids|
  {
    if p == 0 {
      RequeueHead(s, ids);
    } else {
      assert ids[1..][p - 1] == ids[p];
      EntryStays(s, ids, ids[p], s.stamp + 1 + p);
      RequeueStamps(RequeueFirst(s, ids), ids[1..], p - 1);
    }
  }

  /** One node's turn: that node. */
  lemma SweepNodeNodes(s: State, w: WorkerId, now: real, timeout: real)
    requires WF(s) && w in s.nodes
    ensures var r := SweepNode(s, w, now, timeout);
      && r.order == s.order && r.nodes.Keys == s.nodes.Keys && Swept(s.nodes[w], r.nodes[w], now, timeout)
      && forall v | v in s.nodes && v != w :: r.nodes[v] == s.nodes[v]
  {
    var node := s.nodes[w];
    if Lost(node, now, timeout) {
      RequeueFrame(SetNode(s, w, Evacuated(node)), node.held);
    }
  }

  /** One node's turn: the entries in the central queue. */
  lemma SweepNodeCount(s: State, w: WorkerId, now: real, timeout: real, j: JobId)
    requires WF(s) && w in s.nodes
    ensures Sum(SweepNode(s, w, now, timeout).central, IsItemOf(j)) == Sum(s.central, IsItemOf(j)) + LostHolds(s.nodes, now, timeout, j)(w)
  {
    var node := s.nodes[w];
    if Lost(node, now, timeout) {
      RequeueCount(SetNode(s, w, Evacuated(node)), node.held, j);
    }
  }

  /** One node's turn: the records of the jobs it held. */
  lemma SweepNodeRecords(s: State, w: WorkerId, now: real, timeout: real, j: JobId)
    requires WF(s) && w in s.nodes
    ensures var r := SweepNode(s, w, now, timeout);
      && SameHands(s, r) && r.registry == s.registry && r.jobs.Keys == s.jobs.Keys
      && (j in s.jobs ==>
            r.jobs[j] == if Lost(s.nodes[w], now, timeout) && j in s.nodes[w].held
                         then s.jobs[j].(status := Queued, workerId := None) else s.jobs[j])
  {
    var node := s.nodes[w];
    if Lost(node, now, timeout) {
      var s1 := SetNode(s, w, Evacuated(node));
      RequeueFrame(s1, node.held);
      if j in s.jobs {
        RequeueRecords(s1, node.held, j);
      }
    }
  }

  /** `j` is held by a worker of `ws` that the sweep finds lost. */
  ghost predicate Stranded(nodes: map<WorkerId, Node>, ws: seq<WorkerId>, now: real, timeout: real, j: JobId) {
    exists w :: w in ws && w in nodes && Lost(nodes[w], now, timeout) && j in nodes[w].held
  }

  lemma StrandedStep(nodes: map<WorkerId, Node>, ws: seq<WorkerId>, now: real, timeout: real, j: JobId)
    requires ws != [] && ws[0] in nodes
    ensures Stranded(nodes, ws, now, timeout, j) <==>
              (Lost(nodes[ws[0]], now, timeout) && j in nodes[ws[0]].held) || Stranded(nodes, ws[1..], now, timeout, j)
  {
    assert forall w | w in ws :: w == ws[0] || w in ws[1..];
  }

  lemma StrandedAgree(nodes: map<WorkerId, Node>, others: map<WorkerId, Node>, ws: seq<WorkerId>, now: real, timeout: real, j: JobId)
    requires forall w | w in ws :: w in nodes && w in others && nodes[w] == others[w]
    ensures Stranded(nodes, ws, now, timeout, j) <==> Stranded(others, ws, now, timeout, j)
  {
    if Stranded(nodes, ws, now, timeout, j) {
      var w :| w in ws && w in nodes && Lost(nodes[w], now, timeout) && j in nodes[w].held;
      assert w in others && Lost(others[w], now, timeout) && j in others[w].held;
    }
    if Stranded(others, ws, now, timeout, j) {
      var w :| w in ws && w in others && Lost(others[w], now, timeout) && j in others[w].held;
      assert w in nodes && Lost(nodes[w], now, timeout) && j in nodes[w].held;
    }
  }

  lemma LostHoldsAgree(nodes: map<WorkerId, Node>, others: map<WorkerId, Node>, ws: seq<WorkerId>, now: real, timeout: real, j: JobId)
    requires forall w | w in ws :: w in nodes && w in others && nodes[w] == others[w]
    ensures Sum(ws, LostHolds(nodes, now, timeout, j)) == Sum(ws, LostHolds(others, now, timeout, j))
  {
    SumAgree(ws, LostHolds(nodes, now, timeout, j), LostHolds(others, now, timeout, j));
  }

  lemma {:induction false} SweepFromNodes(s: State, ws: seq<WorkerId>, now: real, timeout: real)
    requires WF(s) && Distinct(ws) && forall w | w in ws :: w in s.nodes
    ensures var r := SweepFrom(s, ws, now, timeout);
      && r.order == s.order && r.nodes.Keys == s.nodes.Keys
      && forall v | v in s.nodes :: if v in ws then Swept(s.nodes[v], r.nodes[v], now, timeout) else r.nodes[v] == s.nodes[v]
    decreases |ws|
  {
    if ws != [] {
      SweepNodeNodes(s, ws[0], now, timeout);
      assert forall i | 1 <= i < |ws| :: ws[0] != ws[i];
      SweepFromNodes(SweepNode(s, ws[0], now, timeout), ws[1..], now, timeout);
    }
  }

  lemma {:induction false} SweepFromCount(s: State, ws: seq<WorkerId>, now: real, timeout: real, j: JobId)
    requires WF(s) && Distinct(ws) && forall w | w in ws :: w in s.nodes
    ensures Sum(SweepFrom(s, ws, now, timeout).central, IsItemOf(j)) == Sum(s.central, IsItemOf(j)) + Sum(ws, LostHolds(s.nodes, now, timeout, j))
    decreases |ws|
  {
    if ws != [] {
      var s1 := SweepNode(s, ws[0], now, timeout);
      SweepNodeNodes(s, ws[0], now, timeout);
      SweepNodeCount(s, ws[0], now, timeout, j);
      assert forall i | 1 <= i < |ws| :: ws[0] != ws[i];
      SweepFromCount(s1, ws[1..], now, timeout, j);
      LostHoldsAgree(s.nodes, s1.nodes, ws[1..], now, timeout, j);
    }
  }

  lemma {:induction false} SweepFromRecords(s: State, ws: seq<WorkerId>, now: real, timeout: real, j: JobId)
    requires WF(s) && Distinct(ws) && forall w | w in ws :: w in s.nodes
    ensures var r := SweepFrom(s, ws, now, timeout);
      && SameHands(s, r) && r.registry == s.registry && r.jobs.Keys == s.jobs.Keys
      && (j in s.jobs ==>
            r.jobs[j] == if Stranded(s.nodes, ws, now, timeout, j)
                         then s.jobs[j].(status := Queued, workerId := None) else s.jobs[j])
    decreases |ws|
  {
    if ws != [] {
      var s1 := SweepNode(s, ws[0], now, timeout);
      SweepNodeNodes(s, ws[0], now, timeout);
      SweepNodeRecords(s, ws[0], now, timeout, j);
      assert forall i | 1 <= i < |ws| :: ws[0] != ws[i];
      SweepFromRecords(s1, ws[1..], now, timeout, j);
      StrandedStep(s.nodes, ws, now, timeout, j);
      StrandedAgree(s.nodes, s1.nodes, ws[1..], now, timeout, j);
    }
  }

  lemma StrandedCount(nodes: map<WorkerId, Node>, ws: seq<WorkerId>, now: real, timeout: real, j: JobId)
    ensures Sum(ws, LostHolds(nodes, now, timeout, j)) >= 1 <==> Stranded(nodes, ws, now, timeout, j)
  {
    SumZero(ws, LostHolds(nodes, now, timeout, j));
    forall w | w in ws && w in nodes ensures Sum(nodes[w].held, IsId(j)) >= 1 <==> j in nodes[w].held {
      SumZero(nodes[w].held, IsId(j));
    }
  }

  lemma QueuedIsAlone(s: State, j: JobId)
    requires Inv(s) && j in s.jobs && Sum(s.central, IsItemOf(j)) >= 1
    ensures Sum(s.central, IsItemOf(j)) == 1 && forall w | w in s.nodes :: j !in s.nodes[w].held
  {
    assert JobInv(s, j);
    forall w | w in s.nodes ensures j !in s.nodes[w].held {
      if j in s.nodes[w].held {
        HeldByOne(s, w, j);
      }
    }
  }

  /** What a sweep makes of one job, while every job is in one place. */
  ghost predicate Recovered(s: State, r: State, now: real, timeout: real, j: JobId)
    requires j in s.jobs
  {
    && j in r.jobs
    && if Stranded(s.nodes, s.order, now, timeout, j) then
         && r.jobs[j] == s.jobs[j].(status := Queued, workerId := None)
         && Sum(r.central, IsItemOf(j)) == 1 && forall w | w in r.nodes :: j !in r.nodes[w].held
       else r.jobs[j] == s.jobs[j] && Sum(r.central, IsItemOf(j)) == Sum(s.central, IsItemOf(j))
  }

  lemma SweepRecovers(s: State, now: real, timeout: real, j: JobId)
    requires Inv(s) && j in s.jobs
    ensures Recovered(s, SweepFrom(s, s.order, now, timeout), now, timeout, j)
  {
    var r := SweepFrom(s, s.order, now, timeout);
    SweepFromRecords(s, s.order, now, timeout, j);
    SweepFromCount(s, s.order, now, timeout, j);
    StrandedCount(s.nodes, s.order, now, timeout, j);
    SweepInv(s, s.order, now, timeout);
    if Stranded(s.nodes, s.order, now, timeout, j) {
      QueuedIsAlone(r, j);
    }
  }

  /**
   A sweep suspends the late workers and empties the lost ones, and touches no other. While every job is
   in one place, each job of a lost worker ends up QUEUED, of no worker, with exactly one entry in the
   central queue and on no node; every other job keeps its record and its entries.
   */
  lemma SweepMeans(s: State, now: real, timeout: real, j: JobId)
    requires Inv(s) && j in s.jobs
    ensures var r := SweepFrom(s, s.order, now, timeout);
      && r.nodes.Keys == s.nodes.Keys && (forall w | w in s.nodes :: Swept(s.nodes[w], r.nodes[w], now, timeout))
      && Recovered(s, r, now, timeout, j)
  {
    SweepFromNodes(s, s.order, now, timeout);
    SweepRecovers(s, now, timeout, j);
  }
}
