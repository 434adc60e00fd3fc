/** Where each job is: the places, the invariant about them, and how the pieces of the protocol's steps keep it. */
module JobPlaces {
  import opened Prelude
  import opened Tallies
  import opened JobProtocol
  import opened JobBudget

  // ---------------------------------------------------------------- counting places

  function IsHand(x: Hand): Hand -> nat {
    (h: Hand) => if h == x then 1 else 0
  }

  function Holds(node: Node, j: JobId): nat {
    if j in node.held then 1 else 0
  }

  function HeldOn(nodes: map<WorkerId, Node>, j: JobId): WorkerId -> nat {
    (w: WorkerId) => if w in nodes then Holds(nodes[w], j) else 0
  }

  function InHands(s: State, h: Hand): nat {
    Sum(s.picked, IsHand(h)) + Sum(s.running, IsHand(h))
  }

  /** The number of places `j` is in: central queue copies, local hands, nodes holding it. */
  function Places(s: State, j: JobId): nat {
    Sum(s.central, IsItemOf(j)) + InHands(s, Hand(Local, j)) + Sum(s.order, HeldOn(s.nodes, j))
  }

  /** Copies of `j` in the queue of node `w` or in its runner's hands. */
  function OnNode(s: State, w: WorkerId, j: JobId): nat
    requires w in s.nodes
  {
    Sum(s.nodes[w].queue, IsId(j)) + InHands(s, Hand(Remote(w), j))
  }

  // ---------------------------------------------------------------- the invariant

  /** A job is in one place and tracked, or in none and finished. */
  ghost predicate JobInv(s: State, j: JobId) {
    j in s.jobs ==> Places(s, j) <= 1 && if Places(s, j) == 0 then Terminal(s.jobs[j].status) else j in s.registry
  }

  /** On its way from one place to another. */
  ghost predicate InTransit(s: State, j: JobId) {
    j in s.jobs && j in s.registry && Places(s, j) == 0
  }

  ghost predicate NodeInv(s: State, w: WorkerId)
    requires w in s.nodes
  {
    var node := s.nodes[w];
    && Distinct(node.held)
    && (forall j | j in node.queue :: j in node.held)
    && (forall j | j in node.held :: OnNode(s, w, j) == 1)
    && (node.status == Offline ==> node.held == [])
  }

  ghost predicate NodesInv(s: State) {
    forall w | w in s.nodes :: NodeInv(s, w)
  }

  /** Every job is where it should be, except that the jobs `out` are in transit. */
  ghost predicate JobsInv(s: State, out: seq<JobId>) {
    forall j :: if j in out then InTransit(s, j) else JobInv(s, j)
  }

  /** The invariant, with the jobs `out` in transit. */
  ghost predicate InvExcept(s: State, out: seq<JobId>) {
    && WF(s)
    && NodesInv(s)
    && JobsInv(s, out)
  }

  ghost predicate Inv(s: State) {
    InvExcept(s, [])
  }

  /** A remote hand whose worker still holds the job. */
  predicate Live(s: State, h: Hand) {
    h.holder.Remote? && h.holder.worker in s.nodes && h.job in s.nodes[h.holder.worker].held
  }

  // ---------------------------------------------------------------- how each piece moves the places

  /** A job nobody submitted is nowhere. */
  lemma UnknownNowhere(s: State, j: JobId)
    requires WF(s) && j !in s.jobs
    ensures Places(s, j) == 0
    ensures forall w | w in s.nodes :: OnNode(s, w, j) == 0
  {
    SumZero(s.central, IsItemOf(j));
    SumZero(s.picked, IsHand(Hand(Local, j)));
    SumZero(s.running, IsHand(Hand(Local, j)));
    SumZero(s.order, HeldOn(s.nodes, j));
    forall w | w in s.nodes ensures OnNode(s, w, j) == 0 {
      SumZero(s.nodes[w].queue, IsId(j));
      SumZero(s.picked, IsHand(Hand(Remote(w), j)));
      SumZero(s.running, IsHand(Hand(Remote(w), j)));
    }
  }

  lemma SetNodePlaces(s: State, w: WorkerId, node: Node, j: JobId)
    requires WF(s) && w in s.nodes
    ensures Places(SetNode(s, w, node), j) + Holds(s.nodes[w], j) == Places(s, j) + Holds(node, j)
  {
    SumUpdate(s.order, w, HeldOn(s.nodes, j), HeldOn(s.nodes[w := node], j));
  }

  lemma PutCentralPlaces(s: State, x: JobId, j: JobId)
    requires WF(s) && x in s.jobs
    ensures Places(PutCentral(s, x), j) == Places(s, j) + IsId(j)(x)
  {
    var spec := s.jobs[x].spec;
    InsertSum(s.central, Item(spec.priority, spec.createdAt, s.stamp + 1, x), IsItemOf(j));
  }

  lemma HeldByOne(s: State, w: WorkerId, j: JobId)
    requires WF(s) && w in s.nodes && j in s.nodes[w].held
    ensures Sum(s.order, HeldOn(s.nodes, j)) >= 1
  {
    var k :| 0 <= k < |s.order| && s.order[k] == w;
    SumAtLeast(s.order, k, HeldOn(s.nodes, j));
  }

  lemma HeldByTwo(s: State, w: WorkerId, v: WorkerId, j: JobId)
    requires WF(s) && v != w && w in s.nodes && v in s.nodes && j in s.nodes[w].held && j in s.nodes[v].held
    ensures Sum(s.order, HeldOn(s.nodes, j)) >= 2
  {
    var k :| 0 <= k < |s.order| && s.order[k] == w;
    var i :| 0 <= i < |s.order| && s.order[i] == v;
    SumWithout(s.order, k, HeldOn(s.nodes, j));
    var rest := if i < k then i else i - 1;
    assert Without(s.order, k)[rest] == v;
    SumAtLeast(Without(s.order, k), rest, HeldOn(s.nodes, j));
  }

  /** A job held by a node is in no other place. */
  lemma HeldOnce(s: State, w: WorkerId, j: JobId)
    requires WF(s) && w in s.nodes && j in s.nodes[w].held
    ensures Places(s, j) >= 1
    ensures Places(s, j) == 1 ==> Sum(s.central, IsItemOf(j)) == 0 && InHands(s, Hand(Local, j)) == 0
    ensures Places(s, j) == 1 ==> forall v | v in s.nodes && v != w :: j !in s.nodes[v].held
  {
    HeldByOne(s, w, j);
    forall v | v in s.nodes && v != w ensures j in s.nodes[v].held ==> Places(s, j) >= 2 {
      if j in s.nodes[v].held {
        HeldByTwo(s, w, v, j);
      }
    }
  }

  // ---------------------------------------------------------------- building blocks keep the invariant

  lemma SetJobWF(s: State, x: JobId, rec: JobRec)
    requires WF(s) && x in s.jobs
    ensures WF(SetJob(s, x, rec))
  {
  }

  /** A record may change while its job is in some place, in transit, or for a terminal status. */
  lemma SetJobInv(s: State, x: JobId, rec: JobRec, out: seq<JobId>)
    requires InvExcept(s, out) && x in s.jobs
    requires x in out || Places(s, x) >= 1 || Terminal(rec.status)
    ensures InvExcept(SetJob(s, x, rec), out)
  {
    var r := SetJob(s, x, rec);
    SetJobWF(s, x, rec);
    forall j ensures if j in out then InTransit(r, j) else JobInv(r, j) {
      assert Places(r, j) == Places(s, j);
      assert if j in out then InTransit(s, j) else JobInv(s, j);
    }
    forall w | w in r.nodes ensures NodeInv(r, w) {
      assert NodeInv(s, w);
      assert forall j :: OnNode(r, w, j) == OnNode(s, w, j);
    }
  }

  /** Putting a job into the central queue ends its transit. */
  lemma PutCentralInv(s: State, x: JobId, before: seq<JobId>, after: seq<JobId>)
    requires InvExcept(s, before) && x in before && x !in after
    requires forall j | j != x :: j in before <==> j in after
    ensures x in s.jobs && InvExcept(PutCentral(s, x), after)
  {
    assert if x in before then InTransit(s, x) else JobInv(s, x);
    var r := PutCentral(s, x);
    forall j ensures if j in after then InTransit(r, j) else JobInv(r, j) {
      PutCentralPlaces(s, x, j);
      assert if j in before then InTransit(s, j) else JobInv(s, j);
    }
    forall w | w in r.nodes ensures NodeInv(r, w) {
      assert NodeInv(s, w);
      assert forall j :: OnNode(r, w, j) == OnNode(s, w, j);
    }
  }

  lemma SetNodeWF(s: State, w: WorkerId, node: Node)
    requires WF(s) && w in s.nodes && AllKnown(s.jobs, node.queue) && AllKnown(s.jobs, node.held)
    ensures WF(SetNode(s, w, node))
  {
  }

  lemma JoinJobsInv(s: State, x: JobId, w: WorkerId, node: Node, j: JobId)
    requires InvExcept(s, [x]) && w in s.nodes && node == Joined(s.nodes[w], x) && x !in s.nodes[w].held
    ensures JobInv(SetNode(s, w, node), j)
  {
    SetNodePlaces(s, w, node, j);
    assert if j in [x] then InTransit(s, j) else JobInv(s, j);
  }

  lemma JoinCounts(s: State, x: JobId, w: WorkerId, node: Node, v: WorkerId, j: JobId)
    requires w in s.nodes && v in s.nodes && node == Joined(s.nodes[w], x)
    ensures OnNode(SetNode(s, w, node), v, j) == OnNode(s, v, j) + (if v == w then IsId(j)(x) else 0)
  {
    SumAppend(s.nodes[w].queue, x, IsId(j));
  }

  lemma JoinNodeInv(s: State, x: JobId, w: WorkerId, node: Node, v: WorkerId)
    requires w in s.nodes && v in s.nodes && NodeInv(s, v) && x !in s.nodes[w].held
    requires s.nodes[w].status != Offline && OnNode(s, w, x) == 0
    requires node == Joined(s.nodes[w], x)
    ensures NodeInv(SetNode(s, w, node), v)
  {
    var r := SetNode(s, w, node);
    forall j | j in r.nodes[v].held ensures OnNode(r, v, j) == 1 {
      JoinCounts(s, x, w, node, v, j);
    }
  }

  /** A job in transit joins a node's queue and dictionary. */
  lemma JoinInv(s: State, x: JobId, w: WorkerId, node: Node)
    requires InvExcept(s, [x]) && w in s.nodes && s.nodes[w].status != Offline && OnNode(s, w, x) == 0
    requires node == Joined(s.nodes[w], x)
    ensures Inv(SetNode(s, w, node))
  {
    var r := SetNode(s, w, node);
    assert NodeInv(s, w) && x !in s.nodes[w].held;
    assert if x in [x] then InTransit(s, x) else JobInv(s, x);
    SetNodeWF(s, w, node);
    forall j ensures JobInv(r, j) {
      JoinJobsInv(s, x, w, node, j);
    }
    forall v | v in r.nodes ensures NodeInv(r, v) {
      assert NodeInv(s, v);
      JoinNodeInv(s, x, w, node, v);
    }
  }

  lemma PlaceOnInv(s: State, x: JobId, w: WorkerId)
    requires InvExcept(s, [x]) && w in s.nodes && s.nodes[w].status != Offline && OnNode(s, w, x) == 0
    ensures x in s.jobs && Inv(PlaceOn(s, x, w))
  {
    assert if x in [x] then InTransit(s, x) else JobInv(s, x);
    SetJobInv(s, x, Sent(s.jobs[x], w), [x]);
    var s1 := SetJob(s, x, Sent(s.jobs[x], w));
    JoinInv(s1, x, w, Joined(s.nodes[w], x));
  }

  lemma {:induction false} RequeueInv(s: State, ids: seq<JobId>)
    requires InvExcept(s, ids) && Distinct(ids) && AllKnown(s.jobs, ids)
    ensures Inv(Requeue(s, ids))
    decreases |ids|
  {
    if ids != [] {
      var x := ids[0];
      var rec := s.jobs[x].(status := Queued, workerId := None);
      SetJobInv(s, x, rec, ids);
      PutCentralInv(SetJob(s, x, rec), x, ids, ids[1..]);
      var r := PutCentral(SetJob(s, x, rec), x);
      BookkeepingInv(r, r.(recoveries := s.recoveries + multiset{x}), ids[1..]);
      RequeueInv(r.(recoveries := s.recoveries + multiset{x}), ids[1..]);
    }
  }

  /** The event counters play no part in the invariant. */
  lemma BookkeepingInv(s: State, r: State, out: seq<JobId>)
    requires InvExcept(s, out)
    requires r == s.(starts := r.starts, placements := r.placements, recoveries := r.recoveries)
    ensures InvExcept(r, out)
  {
    assert forall j :: Places(r, j) == Places(s, j);
    forall w | w in r.nodes ensures NodeInv(r, w) {
      assert NodeInv(s, w);
      assert forall j :: OnNode(r, w, j) == OnNode(s, w, j);
    }
  }

  /** A node's status and heartbeat may change, except to OFFLINE while it holds jobs. */
  lemma TouchNodeInv(s: State, w: WorkerId, node: Node)
    requires Inv(s) && w in s.nodes
    requires node.queue == s.nodes[w].queue && node.held == s.nodes[w].held
    requires node.status == Offline ==> node.held == []
    ensures Inv(SetNode(s, w, node))
  {
    var r := SetNode(s, w, node);
    forall j ensures JobInv(r, j) {
      SetNodePlaces(s, w, node, j);
      assert JobInv(s, j);
    }
    forall v | v in r.nodes ensures NodeInv(r, v) {
      assert NodeInv(s, v);
      assert forall j :: OnNode(r, v, j) == OnNode(s, v, j);
    }
  }

  // ---------------------------------------------------------------- every step keeps the invariant

  lemma AdmitCounts(s: State, x: JobId, rec: JobRec)
    requires WF(s)
    ensures forall j :: Places(Admit(s, x, rec), j) == Places(s, j)
    ensures forall w, j | w in s.nodes :: OnNode(Admit(s, x, rec), w, j) == OnNode(s, w, j)
  {
  }

  lemma AdmitJobsInv(s: State, x: JobId, rec: JobRec)
    requires Inv(s) && Places(s, x) == 0
    ensures JobsInv(Admit(s, x, rec), [x])
  {
    var r := Admit(s, x, rec);
    AdmitCounts(s, x, rec);
    forall j ensures if j in [x] then InTransit(r, j) else JobInv(r, j) {
      assert JobInv(s, j) && Places(r, j) == Places(s, j);
    }
  }

  lemma AdmitNodesInv(s: State, x: JobId, rec: JobRec)
    requires WF(s) && NodesInv(s)
    ensures NodesInv(Admit(s, x, rec))
  {
    var r := Admit(s, x, rec);
    AdmitCounts(s, x, rec);
    forall w | w in r.nodes ensures NodeInv(r, w) {
      assert NodeInv(s, w);
    }
  }

  /** A job that is nowhere enters the registry, in transit. */
  lemma AdmitInv(s: State, x: JobId, rec: JobRec)
    requires Inv(s) && Places(s, x) == 0
    ensures InvExcept(Admit(s, x, rec), [x])
  {
    AdmitJobsInv(s, x, rec);
    AdmitNodesInv(s, x, rec);
  }

  lemma TakeLocalCounts(s: State, j: JobId)
    requires WF(s) && s.central != []
    ensures Places(TakeLocal(s), j) == Places(s, j)
    ensures forall w | w in s.nodes :: OnNode(TakeLocal(s), w, j) == OnNode(s, w, j)
  {
    var h := Hand(Local, s.central[0].job);
    SumAppend(s.picked, h, IsHand(Hand(Local, j)));
    forall w | w in s.nodes ensures OnNode(TakeLocal(s), w, j) == OnNode(s, w, j) {
      SumAppend(s.picked, h, IsHand(Hand(Remote(w), j)));
    }
  }

  lemma TakeLocalInv(s: State)
    requires Inv(s)
    ensures Inv(TakeLocal(s))
  {
    if s.central != [] {
      var r := TakeLocal(s);
      forall j ensures JobInv(r, j) {
        TakeLocalCounts(s, j);
        assert JobInv(s, j);
      }
      forall w | w in r.nodes ensures NodeInv(r, w) {
        assert NodeInv(s, w);
        forall j ensures OnNode(r, w, j) == OnNode(s, w, j) {
          TakeLocalCounts(s, j);
        }
      }
    }
  }

  /** A fetch moves a copy from the node's queue into its runner's hands. */
  lemma FetchCounts(s: State, w: WorkerId, j: JobId)
    requires WF(s) && w in s.nodes && s.nodes[w].queue != []
    ensures Places(Fetch(s, w), j) == Places(s, j)
    ensures forall v | v in s.nodes :: OnNode(Fetch(s, w), v, j) == OnNode(s, v, j)
  {
    var node := s.nodes[w];
    var h := Hand(Remote(w), node.queue[0]);
    SetNodePlaces(s, w, node.(queue := node.queue[1..]), j);
    SumAppend(s.picked, h, IsHand(Hand(Local, j)));
    forall v | v in s.nodes ensures OnNode(Fetch(s, w), v, j) == OnNode(s, v, j) {
      SumAppend(s.picked, h, IsHand(Hand(Remote(v), j)));
    }
  }

  lemma FetchInv(s: State, w: WorkerId)
    requires Inv(s)
    ensures Inv(Fetch(s, w))
  {
    if w in s.nodes && s.nodes[w].queue != [] {
      var r := Fetch(s, w);
      forall j ensures JobInv(r, j) {
        FetchCounts(s, w, j);
        assert JobInv(s, j);
      }
      forall v | v in r.nodes ensures NodeInv(r, v) {
        assert NodeInv(s, v);
        forall j | j in r.nodes[v].held ensures OnNode(r, v, j) == 1 {
          FetchCounts(s, w, j);
        }
      }
    }
  }

  /** Taking one hand out of `picked` or `running` takes it out of the count of hands. */
  lemma PutDownHands(s: State, k: nat, x: Hand)
    requires k < |s.picked|
    ensures InHands(s.(picked := Without(s.picked, k)), x) + IsHand(x)(s.picked[k]) == InHands(s, x)
  {
    SumWithout(s.picked, k, IsHand(x));
  }

  lemma StopHands(s: State, k: nat, x: Hand)
    requires k < |s.running|
    ensures InHands(s.(running := Without(s.running, k)), x) + IsHand(x)(s.running[k]) == InHands(s, x)
  {
    SumWithout(s.running, k, IsHand(x));
  }

  lemma PutDownPlaces(s: State, r: State, x: JobId, j: JobId)
    requires r == s.(picked := r.picked, running := r.running)
    requires forall h: Hand :: InHands(r, h) + IsHand(h)(Hand(Local, x)) == InHands(s, h)
    ensures Places(r, j) + IsId(j)(x) == Places(s, j)
  {
    assert InHands(r, Hand(Local, j)) + IsHand(Hand(Local, j))(Hand(Local, x)) == InHands(s, Hand(Local, j));
  }

  /** Once a local hand is put down its job is in transit. */
  lemma PutDownInv(s: State, r: State, x: JobId)
    requires Inv(s) && x in s.jobs
    requires r == s.(picked := r.picked, running := r.running) && WF(r)
    requires forall h: Hand :: InHands(r, h) + IsHand(h)(Hand(Local, x)) == InHands(s, h)
    ensures InvExcept(r, [x])
  {
    forall j ensures Places(r, j) + IsId(j)(x) == Places(s, j) {
      PutDownPlaces(s, r, x, j);
    }
    forall j ensures if j in [x] then InTransit(r, j) else JobInv(r, j) {
      assert JobInv(s, j) && JobInv(s, x);
      assert Places(r, j) + IsId(j)(x) == Places(s, j);
    }
    forall w | w in r.nodes ensures NodeInv(r, w) {
      PutDownNodeInv(s, r, x, w);
    }
  }

  lemma PutDownNodeInv(s: State, r: State, x: JobId, w: WorkerId)
    requires w in s.nodes && NodeInv(s, w)
    requires r == s.(picked := r.picked, running := r.running)
    requires forall h: Hand :: InHands(r, h) + IsHand(h)(Hand(Local, x)) == InHands(s, h)
    ensures NodeInv(r, w)
  {
    forall j ensures OnNode(r, w, j) == OnNode(s, w, j) {
      assert InHands(r, Hand(Remote(w), j)) + IsHand(Hand(Remote(w), j))(Hand(Local, x)) == InHands(s, Hand(Remote(w), j));
    }
  }

  /** A job in transit that has ended is finished. */
  lemma FinishInv(s: State, x: JobId, rec: JobRec)
    requires InvExcept(s, [x]) && Terminal(rec.status)
    ensures Inv(SetJob(s, x, rec))
    ensures Places(SetJob(s, x, rec), x) == 0
  {
    assert x in [x];
    SetJobInv(s, x, rec, [x]);
    var r := SetJob(s, x, rec);
    forall j ensures JobInv(r, j) {
      assert if j in [x] then InTransit(r, j) else JobInv(r, j);
    }
  }

  lemma BeginLocalInv(s: State, k: nat)
    requires Inv(s)
    ensures Inv(BeginLocal(s, k))
    ensures k < |s.picked| && s.picked[k].holder.Local? && s.jobs[s.picked[k].job].cancelled ==>
              Places(BeginLocal(s, k), s.picked[k].job) == 0
  {
    if k < |s.picked| && s.picked[k].holder.Local? {
      var x := s.picked[k].job;
      var rec := s.jobs[x];
      var s1 := PutDown(s, k);
      forall h: Hand ensures InHands(s1, h) + IsHand(h)(Hand(Local, x)) == InHands(s, h) {
        PutDownHands(s, k, h);
      }
      PutDownInv(s, s1, x);
      if rec.cancelled || rec.status == Cancelled {
        FinishInv(s1, x, rec.(status := Cancelled));
      } else {
        SetJobInv(s1, x, rec.(status := Running), [x]);
        StartLocalInv(SetJob(s1, x, rec.(status := Running)), x);
      }
    }
  }

  lemma StartLocalInv(s: State, x: JobId)
    requires InvExcept(s, [x])
    ensures x in s.jobs && Inv(StartTarget(s, Hand(Local, x)))
  {
    assert x in [x];
    var h := Hand(Local, x);
    var r := StartTarget(s, h);
    forall j ensures JobInv(r, j) {
      SumAppend(s.running, h, IsHand(Hand(Local, j)));
      assert Places(r, j) == Places(s, j) + IsId(j)(x);
      assert if j in [x] then InTransit(s, j) else JobInv(s, j);
    }
    forall w | w in r.nodes ensures NodeInv(r, w) {
      assert NodeInv(s, w);
      forall j ensures OnNode(r, w, j) == OnNode(s, w, j) {
        SumAppend(s.running, h, IsHand(Hand(Remote(w), j)));
      }
    }
  }

  /** A job in transit may be changed and put into the central queue. */
  lemma ReenterInv(s: State, x: JobId, rec: JobRec)
    requires InvExcept(s, [x]) && x in s.jobs
    ensures WF(SetJob(s, x, rec)) && Inv(PutCentral(SetJob(s, x, rec), x))
  {
    SetJobInv(s, x, rec, [x]);
    PutCentralInv(SetJob(s, x, rec), x, [x], []);
  }

  lemma RetryLocalInv(s: State, x: JobId)
    requires InvExcept(s, [x]) && x in s.jobs
    ensures Inv(RetryLocal(s, x))
  {
    ReenterInv(s, x, Requeued(s.jobs[x]));
  }

  lemma EndLocalInv(s: State, k: nat, raised: bool)
    requires Inv(s)
    ensures Inv(EndLocal(s, k, raised))
  {
    if k < |s.running| && s.running[k].holder.Local? {
      var x := s.running[k].job;
      var rec := s.jobs[x];
      var s1 := Stop(s, k);
      forall h: Hand ensures InHands(s1, h) + IsHand(h)(Hand(Local, x)) == InHands(s, h) {
        StopHands(s, k, h);
      }
      PutDownInv(s, s1, x);
      if !raised {
        FinishInv(s1, x, rec.(status := Completed));
      } else if RetriesLeft(rec) {
        RetryLocalInv(s1, x);
      } else {
        FinishInv(s1, x, rec.(status := Failed));
      }
    }
  }

  // ---------------------------------------------------------------- remote execution

  /** `r` is `s` after hand `h` was put down. */
  ghost predicate HandGone(s: State, r: State, h: Hand) {
    && r == s.(picked := r.picked, running := r.running)
    && forall x: Hand :: InHands(r, x) + IsHand(x)(h) == InHands(s, x)
  }

  /** Putting down a remote hand moves no place; it takes one copy off its own node only. */
  lemma RemoteHandCounts(s: State, r: State, h: Hand, j: JobId)
    requires h.holder.Remote?
    requires HandGone(s, r, h)
    ensures Places(r, j) == Places(s, j)
    ensures forall w | w in s.nodes ::
              OnNode(r, w, j) + IsHand(Hand(Remote(w), j))(h) == OnNode(s, w, j)
  {
    assert InHands(r, Hand(Local, j)) == InHands(s, Hand(Local, j));
    forall w | w in s.nodes
      ensures OnNode(r, w, j) + IsHand(Hand(Remote(w), j))(h) == OnNode(s, w, j)
    {
      assert InHands(r, Hand(Remote(w), j)) + IsHand(Hand(Remote(w), j))(h) == InHands(s, Hand(Remote(w), j));
    }
  }

  /** A node that lets go of a job it holds: one place fewer for that job. */
  lemma SettleOnPlaces(s: State, w: WorkerId, x: JobId, status: JobStatus, j: JobId)
    requires WF(s) && w in s.nodes && x in s.jobs && x in s.nodes[w].held
    ensures Places(SettleOn(s, w, x, status), j) + IsId(j)(x) == Places(s, j)
  {
    SetNodePlaces(SetJob(s, x, s.jobs[x].(status := status)), w, LetGo(s.nodes[w], x), j);
  }

  lemma SettlePlaces(s: State, r: State, h: Hand, status: JobStatus, j: JobId)
    requires WF(s) && Live(s, h) && h.job in s.jobs
    requires HandGone(s, r, h) && WF(r)
    ensures Places(SettleOn(r, h.holder.worker, h.job, status), j) + IsId(j)(h.job) == Places(s, j)
  {
    RemoteHandCounts(s, r, h, j);
    SettleOnPlaces(r, h.holder.worker, h.job, status, j);
  }

  /** A live job whose hand was put down and that its node lets go of is finished. */
  lemma SettleInv(s: State, r: State, h: Hand, status: JobStatus)
    requires Inv(s) && Live(s, h) && Terminal(status) && h.job in s.jobs
    requires HandGone(s, r, h) && WF(r)
    ensures Inv(SettleOn(r, h.holder.worker, h.job, status))
    ensures Places(SettleOn(r, h.holder.worker, h.job, status), h.job) == 0
  {
    SettleAllJobsInv(s, r, h, status);
    SettleNodesInv(s, r, h, status);
  }

  lemma SettleAllJobsInv(s: State, r: State, h: Hand, status: JobStatus)
    requires Inv(s) && Live(s, h) && Terminal(status) && h.job in s.jobs
    requires HandGone(s, r, h) && WF(r)
    ensures Places(SettleOn(r, h.holder.worker, h.job, status), h.job) == 0
    ensures JobsInv(SettleOn(r, h.holder.worker, h.job, status), [])
  {
    var r' := SettleOn(r, h.holder.worker, h.job, status);
    forall j ensures Places(r', j) + IsId(j)(h.job) == Places(s, j) {
      SettlePlaces(s, r, h, status, j);
    }
    SettleJobsInv(s, r', h.job, status);
  }

  lemma SettleNodesInv(s: State, r: State, h: Hand, status: JobStatus)
    requires Inv(s) && Live(s, h) && h.job in s.jobs
    requires HandGone(s, r, h) && WF(r)
    ensures NodesInv(SettleOn(r, h.holder.worker, h.job, status))
  {
    forall v | v in s.nodes ensures NodeInv(SettleOn(r, h.holder.worker, h.job, status), v) {
      assert NodeInv(s, v);
      SettleNodeInv(s, r, h, status, v);
    }
  }

  lemma SettleJobsInv(s: State, r: State, x: JobId, status: JobStatus)
    requires Inv(s) && x in s.jobs && Terminal(status)
    requires r.jobs == s.jobs[x := s.jobs[x].(status := status)] && r.registry == s.registry
    requires forall j :: Places(r, j) + IsId(j)(x) == Places(s, j)
    ensures Places(r, x) == 0 && JobsInv(r, [])
  {
    assert JobInv(s, x) && Places(r, x) + IsId(x)(x) == Places(s, x);
    forall j ensures JobInv(r, j) {
      assert JobInv(s, j) && Places(r, j) + IsId(j)(x) == Places(s, j);
    }
  }

  /** The settled job loses its hand; every other count stays. */
  lemma SettleCounts(s: State, r: State, h: Hand, status: JobStatus, v: WorkerId, j: JobId)
    requires WF(r) && v in s.nodes && h.holder.Remote? && h.holder.worker in s.nodes && h.job in s.jobs
    requires HandGone(s, r, h)
    ensures OnNode(SettleOn(r, h.holder.worker, h.job, status), v, j) + IsHand(Hand(Remote(v), j))(h) == OnNode(s, v, j)
  {
    RemoteHandCounts(s, r, h, j);
  }

  lemma SettleNodeInv(s: State, r: State, h: Hand, status: JobStatus, v: WorkerId)
    requires WF(s) && Live(s, h) && v in s.nodes && NodeInv(s, v) && h.job in s.jobs
    requires HandGone(s, r, h) && WF(r)
    ensures NodeInv(SettleOn(r, h.holder.worker, h.job, status), v)
  {
    var w, x := h.holder.worker, h.job;
    var r' := SettleOn(r, w, x, status);
    var before, after := s.nodes[v], r'.nodes[v];
    assert after == if v == w then LetGo(before, x) else before;
    forall j | j in after.held ensures OnNode(r', v, j) == 1 {
      SettleCounts(s, r, h, status, v, j);
    }
    if v == w {
      SettleCounts(s, r, h, status, v, x);
      SumZero(before.queue, IsId(x));
      assert x !in before.queue;
    }
  }

  /** The CANCELLED report settles the job as if no RUNNING report had gone before. */
  lemma SettleAfterRunning(s: State, w: WorkerId, x: JobId)
    requires WF(s) && w in s.nodes && x in s.registry
    ensures Report(Report(s, w, x, Running), w, x, Cancelled) == SettleOn(s, w, x, Cancelled)
  {
    var rec := s.jobs[x];
    assert s.jobs[x := rec.(status := Running)][x := rec.(status := Cancelled)] == s.jobs[x := rec.(status := Cancelled)];
  }

  /** A job that some node holds is tracked. */
  lemma HeldIsTracked(s: State, w: WorkerId, x: JobId)
    requires Inv(s) && w in s.nodes && x in s.nodes[w].held
    ensures x in s.jobs && x in s.registry && Places(s, x) == 1
  {
    HeldOnce(s, w, x);
    assert JobInv(s, x);
  }

  lemma BeginRemoteCancelledInv(s: State, k: nat)
    requires Inv(s) && k < |s.picked| && Live(s, s.picked[k]) && s.jobs[s.picked[k].job].cancelled
    ensures Inv(BeginRemote(s, k)) && Places(BeginRemote(s, k), s.picked[k].job) == 0
  {
    var h := s.picked[k];
    var r := PutDown(s, k);
    forall x: Hand ensures InHands(r, x) + IsHand(x)(h) == InHands(s, x) {
      PutDownHands(s, k, x);
    }
    HeldIsTracked(s, h.holder.worker, h.job);
    SettleInv(s, r, h, Cancelled);
    SettleAfterRunning(r, h.holder.worker, h.job);
  }

  /** A picked-up job that starts stays in the same places. */
  lemma StartPickedInv(s: State, k: nat)
    requires Inv(s) && k < |s.picked|
    ensures Inv(StartTarget(PutDown(s, k), s.picked[k]))
    ensures forall j :: Places(StartTarget(PutDown(s, k), s.picked[k]), j) == Places(s, j)
  {
    var h := s.picked[k];
    var r := StartTarget(PutDown(s, k), h);
    forall x: Hand ensures InHands(r, x) == InHands(s, x) {
      PutDownHands(s, k, x);
      SumAppend(s.running, h, IsHand(x));
    }
    SwapHandsInv(s, r);
  }

  /** A RUNNING report that a known worker makes before it starts the target. */
  lemma BeginRemoteRuns(s: State, k: nat)
    requires WF(s) && k < |s.picked| && s.picked[k].holder.Remote? && !s.jobs[s.picked[k].job].cancelled
    requires s.picked[k].holder.worker in s.nodes && s.picked[k].job in s.registry
    ensures var r := StartTarget(PutDown(s, k), s.picked[k]);
      BeginRemote(s, k) == SetJob(r, s.picked[k].job, s.jobs[s.picked[k].job].(status := Running))
  {
  }

  lemma BeginRemoteRunsInv(s: State, k: nat)
    requires Inv(s) && k < |s.picked| && Live(s, s.picked[k]) && !s.jobs[s.picked[k].job].cancelled
    ensures Inv(BeginRemote(s, k))
  {
    var h := s.picked[k];
    StartPickedInv(s, k);
    HeldIsTracked(s, h.holder.worker, h.job);
    BeginRemoteRuns(s, k);
    SetJobInv(StartTarget(PutDown(s, k), h), h.job, s.jobs[h.job].(status := Running), []);
  }

  lemma BeginRemoteInv(s: State, k: nat)
    requires Inv(s) && k < |s.picked| && Live(s, s.picked[k])
    ensures Inv(BeginRemote(s, k))
    ensures s.jobs[s.picked[k].job].cancelled ==> Places(BeginRemote(s, k), s.picked[k].job) == 0
  {
    if s.jobs[s.picked[k].job].cancelled {
      BeginRemoteCancelledInv(s, k);
    } else {
      BeginRemoteRunsInv(s, k);
    }
  }

  /** A job passed from `picked` to `running` by the same holder. */
  lemma SwapHandsInv(s: State, r: State)
    requires Inv(s) && WF(r)
    requires r == s.(picked := r.picked, running := r.running, starts := r.starts)
    requires forall x: Hand :: InHands(r, x) == InHands(s, x)
    ensures Inv(r) && forall j :: Places(r, j) == Places(s, j)
  {
    forall j ensures Places(r, j) == Places(s, j) {
      assert InHands(r, Hand(Local, j)) == InHands(s, Hand(Local, j));
    }
    forall j ensures JobInv(r, j) {
      assert JobInv(s, j);
    }
    forall w | w in r.nodes ensures NodeInv(r, w) {
      assert NodeInv(s, w);
      forall j ensures OnNode(r, w, j) == OnNode(s, w, j) {
        assert InHands(r, Hand(Remote(w), j)) == InHands(s, Hand(Remote(w), j));
      }
    }
  }

  lemma EndRemoteInv(s: State, k: nat, raised: bool)
    requires Inv(s) && k < |s.running| && Live(s, s.running[k])
    ensures Inv(EndRemote(s, k, raised))
  {
    var h := s.running[k];
    var r := Stop(s, k);
    forall x: Hand ensures InHands(r, x) + IsHand(x)(h) == InHands(s, x) {
      StopHands(s, k, x);
    }
    var status := if raised then Failed else Completed;
    HeldIsTracked(s, h.holder.worker, h.job);
    if raised && RetriesLeft(s.jobs[h.job]) {
      RetryOnInv(s, r, h);
      assert EndRemote(s, k, raised) == RetryOn(r, h.holder.worker, h.job);
    } else {
      SettleInv(s, r, h, status);
      assert EndRemote(s, k, raised) == SettleOn(r, h.holder.worker, h.job, status);
    }
  }

  /** A live job whose hand was put down goes back to the queue of the node that holds it. */
  lemma RetryOnInv(s: State, r: State, h: Hand)
    requires Inv(s) && Live(s, h) && h.job in s.jobs
    requires HandGone(s, r, h) && WF(r)
    ensures Inv(RetryOn(r, h.holder.worker, h.job))
  {
    RetryAllJobsInv(s, r, h);
    RetryNodesInv(s, r, h);
  }

  lemma RetryAllJobsInv(s: State, r: State, h: Hand)
    requires Inv(s) && Live(s, h) && h.job in s.jobs
    requires HandGone(s, r, h) && WF(r)
    ensures JobsInv(RetryOn(r, h.holder.worker, h.job), [])
  {
    var r' := RetryOn(r, h.holder.worker, h.job);
    forall j ensures Places(r', j) == Places(s, j) {
      RetryPlaces(s, r, h, j);
    }
    HeldOnce(s, h.holder.worker, h.job);
    RetryJobsInv(s, r', h.job);
  }

  lemma RetryNodesInv(s: State, r: State, h: Hand)
    requires Inv(s) && Live(s, h) && h.job in s.jobs
    requires HandGone(s, r, h) && WF(r)
    ensures NodesInv(RetryOn(r, h.holder.worker, h.job))
  {
    forall v | v in s.nodes ensures NodeInv(RetryOn(r, h.holder.worker, h.job), v) {
      assert NodeInv(s, v);
      RetryNodeInv(s, r, h, v);
    }
  }

  lemma RetryPlaces(s: State, r: State, h: Hand, j: JobId)
    requires WF(s) && Live(s, h) && h.job in s.jobs
    requires HandGone(s, r, h) && WF(r)
    ensures Places(RetryOn(r, h.holder.worker, h.job), j) == Places(s, j)
  {
    RemoteHandCounts(s, r, h, j);
    RetryOnPlaces(r, h.holder.worker, h.job, j);
  }

  lemma RetryJobsInv(s: State, r: State, x: JobId)
    requires Inv(s) && x in s.jobs && Places(s, x) >= 1
    requires r.jobs == s.jobs[x := Requeued(s.jobs[x])] && r.registry == s.registry
    requires forall j :: Places(r, j) == Places(s, j)
    ensures JobsInv(r, [])
  {
    forall j ensures JobInv(r, j) {
      assert JobInv(s, j) && Places(r, j) == Places(s, j);
    }
  }

  lemma RetryOnPlaces(s: State, w: WorkerId, x: JobId, j: JobId)
    requires WF(s) && w in s.nodes && x in s.jobs && x in s.nodes[w].held
    ensures Places(RetryOn(s, w, x), j) == Places(s, j)
  {
    var node := s.nodes[w];
    SetNodePlaces(SetJob(s, x, Requeued(s.jobs[x])), w, Again(node, x), j);
  }

  /** The retried job trades its hand for a copy in the queue. */
  lemma RetryCounts(s: State, r: State, h: Hand, v: WorkerId, j: JobId)
    requires WF(r) && v in s.nodes && h.holder.Remote? && h.holder.worker in s.nodes && h.job in s.jobs
    requires HandGone(s, r, h)
    ensures OnNode(RetryOn(r, h.holder.worker, h.job), v, j) == OnNode(s, v, j)
  {
    RemoteHandCounts(s, r, h, j);
    SumAppend(s.nodes[h.holder.worker].queue, h.job, IsId(j));
  }

  lemma RetryNodeInv(s: State, r: State, h: Hand, v: WorkerId)
    requires WF(s) && Live(s, h) && v in s.nodes && NodeInv(s, v) && h.job in s.jobs
    requires HandGone(s, r, h) && WF(r)
    ensures NodeInv(RetryOn(r, h.holder.worker, h.job), v)
  {
    var w, x := h.holder.worker, h.job;
    var r' := RetryOn(r, w, x);
    var before, after := s.nodes[v], r'.nodes[v];
    assert after == if v == w then Again(before, x) else before;
    forall j ensures j in after.held <==> j in before.held {
    }
    forall j | j in after.held ensures OnNode(r', v, j) == 1 {
      RetryCounts(s, r, h, v, j);
    }
  }

  // ---------------------------------------------------------------- the monitor

  /** Taking everything off a node puts the jobs it held in transit. */
  lemma EvacuateInv(s: State, w: WorkerId)
    requires Inv(s) && w in s.nodes
    ensures InvExcept(SetNode(s, w, Evacuated(s.nodes[w])), s.nodes[w].held)
  {
    var node := s.nodes[w];
    var r := SetNode(s, w, Evacuated(node));
    forall j ensures if j in node.held then InTransit(r, j) else JobInv(r, j) {
      SetNodePlaces(s, w, Evacuated(node), j);
      assert JobInv(s, j);
    }
    forall v | v in r.nodes ensures NodeInv(r, v) {
      assert NodeInv(s, v);
      assert forall j :: v != w ==> OnNode(r, v, j) == OnNode(s, v, j);
    }
  }

  lemma SweepNodeInv(s: State, w: WorkerId, now: real, timeout: real)
    requires Inv(s)
    ensures Inv(SweepNode(s, w, now, timeout))
  {
    if w in s.nodes {
      var node := s.nodes[w];
      if node.status == Active && now - node.lastHeartbeat >= timeout {
        TouchNodeInv(s, w, node.(status := Suspended));
      } else if node.status == Suspended && now - node.lastHeartbeat >= timeout * 2.0 {
        EvacuateInv(s, w);
        assert NodeInv(s, w);
        RequeueInv(SetNode(s, w, Evacuated(node)), node.held);
      }
    }
  }

  lemma {:induction false} SweepInv(s: State, ws: seq<WorkerId>, now: real, timeout: real)
    requires Inv(s)
    ensures Inv(SweepFrom(s, ws, now, timeout))
    decreases |ws|
  {
    if ws != [] {
      SweepNodeInv(s, ws[0], now, timeout);
      SweepInv(SweepNode(s, ws[0], now, timeout), ws[1..], now, timeout);
    }
  }

  lemma CancelInv(s: State, x: JobId)
    requires Inv(s)
    ensures Inv(Cancel(s, x))
  {
    if CancelSucceeds(s, x) {
      SetJobInv(s, x, s.jobs[x].(cancelled := true, status := Cancelled), []);
    }
  }

  lemma PriorityInv(s: State, x: JobId, priority: int)
    requires Inv(s)
    ensures Inv(SetPriority(s, x, priority))
  {
    if x in s.jobs {
      assert JobInv(s, x);
      SetJobInv(s, x, s.jobs[x].(spec := s.jobs[x].spec.(priority := priority)), []);
    }
  }

  lemma RegisterInv(s: State, w: WorkerId, capabilities: set<string>, now: real)
    requires Inv(s) && w !in s.nodes
    ensures Inv(Register(s, w, capabilities, now))
  {
    var r := Register(s, w, capabilities, now);
    forall j ensures JobInv(r, j) {
      SumAgree(s.order, HeldOn(s.nodes, j), HeldOn(r.nodes, j));
      SumAppend(s.order, w, HeldOn(r.nodes, j));
      assert JobInv(s, j);
    }
    forall v | v in r.nodes ensures NodeInv(r, v) {
      if v != w {
        assert NodeInv(s, v);
        assert forall j :: OnNode(r, v, j) == OnNode(s, v, j);
      }
    }
  }

  lemma HeartbeatInv(s: State, w: WorkerId, now: real)
    requires Inv(s)
    ensures Inv(Heartbeat(s, w, now))
  {
    if w in s.nodes {
      assert NodeInv(s, w);
      TouchNodeInv(s, w, Beaten(s.nodes[w], now));
    }
  }

  lemma StatusInv(s: State, w: WorkerId, status: WorkerState)
    requires Inv(s) && status != Offline
    ensures Inv(SetStatus(s, w, status))
  {
    if w in s.nodes {
      TouchNodeInv(s, w, s.nodes[w].(status := status));
    }
  }
}
