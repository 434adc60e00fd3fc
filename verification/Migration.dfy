/** Schema migration: the shortest chain of registered version jumps, and running it. */
module Migration {
  import opened Prelude
  import opened Graphs

  type Version = string
  type Jump = (Version, Version)

  /** A callback returns the migrated document or raises. */
  type Callback<!D> = D -> Option<D>

  datatype MigrationError = NoPath | CallbackRaised(jump: Jump)

  /** The versions a version can jump to directly, in registration order. */
  function Neighbors(keys: seq<Jump>, v: Version): (r: seq<Version>)
    ensures forall t :: t in r <==> (v, t) in keys
  {
    if keys == [] then []
    else (if keys[0].0 == v then [keys[0].1] else []) + Neighbors(keys[1..], v)
  }

  ghost function Sources(keys: seq<Jump>): set<Version> {
    set j | j in keys :: j.0
  }

  ghost function Targets(keys: seq<Jump>, v: Version): set<Version> {
    set t | t in Neighbors(keys, v)
  }

  /** The registered jumps as a graph. */
  ghost function Jumps(keys: seq<Jump>): Graph<Version> {
    map f | f in Sources(keys) :: Targets(keys, f)
  }

  lemma JumpIsEdge(keys: seq<Jump>, f: Version, t: Version)
    ensures (f, t) in keys <==> f in Jumps(keys) && t in Jumps(keys)[f]
  {
    if (f, t) in keys {
      assert (f, t).0 in Sources(keys);
    }
  }

  /** The jumps along a walk. */
  function JumpsOf(path: seq<Version>): (r: seq<Jump>)
    ensures |r| == if |path| <= 1 then 0 else |path| - 1
    ensures forall i | 0 <= i < |r| :: r[i] == (path[i], path[i + 1])
  {
    if |path| <= 1 then [] else [(path[0], path[1])] + JumpsOf(path[1..])
  }

  /** A chain of registered jumps from `start` to `end`. */
  ghost predicate IsChain(keys: seq<Jump>, start: Version, end: Version, jumps: seq<Jump>) {
    && (forall j | j in jumps :: j in keys)
    && (if jumps == [] then start == end
        else jumps[0].0 == start && Last(jumps).1 == end && forall i | 0 <= i < |jumps| - 1 :: jumps[i].1 == jumps[i + 1].0)
  }

  /** No walk to the last node of `path` is shorter than `path`. */
  ghost predicate Shortest(g: Graph<Version>, start: Version, path: seq<Version>) {
    && IsWalk(g, path) && path[0] == start
    && forall q | IsWalk(g, q) && q[0] == start && Last(q) == Last(path) :: |path| <= |q|
  }

  // ---------------------------------------------------------------- the search invariant

  /** The queued walks are shortest, in order of length, no two lengths more than one apart. */
  ghost predicate QueueOk(g: Graph<Version>, start: Version, queue: seq<seq<Version>>) {
    && (forall p | p in queue :: Shortest(g, start, p))
    && (forall i, j | 0 <= i < j < |queue| :: |queue[i]| <= |queue[j]| <= |queue[0]| + 1)
  }

  /** `v` is the last node of a walk still queued. */
  ghost predicate Waiting(queue: seq<seq<Version>>, v: Version) {
    exists i :: 0 <= i < |queue| && queue[i] != [] && Last(queue[i]) == v
  }

  /** Every visited node still waits in the queue or has all its successors visited. */
  ghost predicate Frontier(g: Graph<Version>, start: Version, end: Version, queue: seq<seq<Version>>, visited: set<Version>) {
    && start in visited
    && (forall p | p in queue :: p != [] && Last(p) in visited)
    && (forall v | v in visited :: Waiting(queue, v) || (v != end && (v in g ==> g[v] <= visited)))
  }

  /** A walk out of the visited part leaves it somewhere. */
  lemma {:induction false} LeavesVisited(g: Graph<Version>, visited: set<Version>, q: seq<Version>) returns (k: nat)
    requires IsWalk(g, q) && q[0] in visited && Last(q) !in visited
    ensures k + 1 < |q| && q[k] in visited && q[k + 1] !in visited
  {
    k := 0;
    while q[k + 1] in visited
      invariant k + 1 < |q| && q[k] in visited
      decreases |q| - k
    {
      k := k + 1;
    }
  }

  lemma PrefixIsWalk(g: Graph<Version>, q: seq<Version>, k: nat)
    requires IsWalk(g, q) && k < |q|
    ensures IsWalk(g, q[..k + 1]) && q[..k + 1][0] == q[0] && Last(q[..k + 1]) == q[k]
  {
  }

  // ---------------------------------------------------------------- one round of the search

  /** `more` are the walks one step longer than `path` to neighbours not visited before. */
  ghost predicate Steps(path: seq<Version>, nodes: seq<Version>, visited: set<Version>, more: seq<seq<Version>>) {
    && (forall p | p in more :: exists n :: n in nodes && n !in visited && p == path + [n])
    && (forall n | n in nodes && n !in visited :: path + [n] in more)
  }

  /** Leaving the visited part costs at least one step more than the shortest queued walk. */
  lemma NewIsFar(g: Graph<Version>, start: Version, end: Version, queue: seq<seq<Version>>, visited: set<Version>, q: seq<Version>)
    requires queue != [] && QueueOk(g, start, queue) && Frontier(g, start, end, queue, visited)
    requires IsWalk(g, q) && q[0] == start && Last(q) !in visited
    ensures |queue[0]| + 1 <= |q|
  {
    var k := LeavesVisited(g, visited, q);
    assert q[k] in g && q[k + 1] in g[q[k]];
    assert Waiting(queue, q[k]);
    var i :| 0 <= i < |queue| && queue[i] != [] && Last(queue[i]) == q[k];
    PrefixIsWalk(g, q, k);
    assert queue[i] in queue && |queue[i]| <= |q[..k + 1]|;
    assert |queue[0]| <= |queue[i]|;
  }

  lemma NewIsShortest(g: Graph<Version>, start: Version, end: Version, queue: seq<seq<Version>>, visited: set<Version>, n: Version)
    requires queue != [] && queue[0] != [] && QueueOk(g, start, queue) && Frontier(g, start, end, queue, visited)
    requires Last(queue[0]) in g && n in g[Last(queue[0])] && n !in visited
    ensures Shortest(g, start, queue[0] + [n])
  {
    var path := queue[0];
    var longer := path + [n];
    assert path in queue;
    assert IsWalk(g, longer) by {
      forall i | 0 <= i < |longer| - 1 ensures longer[i] in g && longer[i + 1] in g[longer[i]] {
        if i < |path| - 1 {
          assert longer[i] == path[i] && longer[i + 1] == path[i + 1];
        }
      }
    }
    forall q | IsWalk(g, q) && q[0] == start && Last(q) == n ensures |longer| <= |q| {
      NewIsFar(g, start, end, queue, visited, q);
    }
  }

  lemma RoundKeepsQueue(g: Graph<Version>, start: Version, end: Version, queue: seq<seq<Version>>, visited: set<Version>,
                        nodes: seq<Version>, more: seq<seq<Version>>)
    requires queue != [] && queue[0] != [] && QueueOk(g, start, queue) && Frontier(g, start, end, queue, visited)
    requires forall n | n in nodes :: Last(queue[0]) in g && n in g[Last(queue[0])]
    requires Steps(queue[0], nodes, visited, more)
    ensures QueueOk(g, start, queue[1..] + more)
  {
    var next := queue[1..] + more;
    forall p | p in more ensures Shortest(g, start, p) && |p| == |queue[0]| + 1 {
      var n :| n in nodes && n !in visited && p == queue[0] + [n];
      NewIsShortest(g, start, end, queue, visited, n);
    }
    forall p | p in next ensures Shortest(g, start, p) {
      assert p in queue[1..] || p in more;
    }
    forall i, j | 0 <= i < j < |next| ensures |next[i]| <= |next[j]| <= |next[0]| + 1 {
      LengthsOfNext(queue, more, i);
      LengthsOfNext(queue, more, j);
      LengthsOfNext(queue, more, 0);
    }
  }

  lemma LengthsOfNext(queue: seq<seq<Version>>, more: seq<seq<Version>>, i: nat)
    requires queue != [] && i < |queue| - 1 + |more|
    requires forall a, b | 0 <= a < b < |queue| :: |queue[a]| <= |queue[b]| <= |queue[0]| + 1
    requires forall p | p in more :: |p| == |queue[0]| + 1
    ensures var next := queue[1..] + more;
      && next[i] == (if i < |queue| - 1 then queue[i + 1] else more[i - (|queue| - 1)])
      && |queue[0]| <= |next[i]| <= |queue[0]| + 1
      && (i >= |queue| - 1 ==> |next[i]| == |queue[0]| + 1)
  {
    if i >= |queue| - 1 {
      assert more[i - (|queue| - 1)] in more;
    }
  }

  lemma RoundKeepsFrontier(g: Graph<Version>, start: Version, end: Version, queue: seq<seq<Version>>, visited: set<Version>,
                           nodes: seq<Version>, more: seq<seq<Version>>)
    requires queue != [] && queue[0] != [] && Frontier(g, start, end, queue, visited) && Last(queue[0]) != end
    requires Last(queue[0]) in g ==> forall n | n in g[Last(queue[0])] :: n in nodes
    requires Steps(queue[0], nodes, visited, more)
    ensures Frontier(g, start, end, queue[1..] + more, visited + set n | n in nodes)
  {
    var next := queue[1..] + more;
    var seen := visited + set n | n in nodes;
    forall p | p in next ensures p != [] && Last(p) in seen {
      assert p in queue[1..] || p in more;
      if p in more {
        var n :| n in nodes && n !in visited && p == queue[0] + [n];
        assert Last(p) == n;
      } else {
        assert p in queue;
      }
    }
    forall v | v in seen ensures Waiting(next, v) || (v != end && (v in g ==> g[v] <= seen)) {
      if v !in visited {
        assert queue[0] + [v] in more;
        var i :| 0 <= i < |more| && more[i] == queue[0] + [v];
        assert next[|queue| - 1 + i] == more[i] && Last(more[i]) == v;
      } else if Waiting(queue, v) {
        var i :| 0 <= i < |queue| && queue[i] != [] && Last(queue[i]) == v;
        if i > 0 {
          assert next[i - 1] == queue[i];
        }
      }
    }
  }

  /** A set closed under successors is not left by a walk. */
  lemma {:induction false} StaysInside(g: Graph<Version>, closed: set<Version>, q: seq<Version>)
    requires forall v | v in closed && v in g :: g[v] <= closed
    requires IsWalk(g, q) && q[0] in closed
    ensures Last(q) in closed
  {
    if |q| >= 2 {
      FirstEdge(g, q);
      StaysInside(g, closed, q[1..]);
    }
  }

  /** Nothing queued and `end` not found: no walk leads there. */
  lemma ExhaustedMeansUnreachable(g: Graph<Version>, start: Version, end: Version, visited: set<Version>)
    requires Frontier(g, start, end, [], visited)
    ensures !Reaches(g, start, end)
  {
    forall q | IsWalk(g, q) && q[0] == start ensures Last(q) != end {
      StaysInside(g, visited, q);
    }
  }

  // ---------------------------------------------------------------- walks and chains

  lemma WalkUsesJumps(keys: seq<Jump>, path: seq<Version>)
    requires IsWalk(Jumps(keys), path)
    ensures forall j | j in JumpsOf(path) :: j in keys
  {
    var jumps := JumpsOf(path);
    forall i | 0 <= i < |jumps| ensures jumps[i] in keys {
      assert path[i + 1] in Jumps(keys)[path[i]];
      JumpIsEdge(keys, path[i], path[i + 1]);
    }
  }

  lemma WalkIsChain(keys: seq<Jump>, path: seq<Version>)
    requires IsWalk(Jumps(keys), path)
    ensures IsChain(keys, path[0], Last(path), JumpsOf(path))
  {
    WalkUsesJumps(keys, path);
    ChainOfJumps(keys, path, JumpsOf(path));
  }

  lemma ChainOfJumps(keys: seq<Jump>, path: seq<Version>, jumps: seq<Jump>)
    requires path != [] && |jumps| == |path| - 1 && forall i | 0 <= i < |jumps| :: jumps[i] == (path[i], path[i + 1])
    requires forall j | j in jumps :: j in keys
    ensures IsChain(keys, path[0], Last(path), jumps)
  {
    if jumps != [] {
      assert jumps[0] == (path[0], path[0 + 1]) && Last(jumps) == (path[|jumps| - 1], path[|jumps|]);
      forall i | 0 <= i < |jumps| - 1 ensures jumps[i].1 == jumps[i + 1].0 {
        assert jumps[i] == (path[i], path[i + 1]) && jumps[i + 1] == (path[i + 1], path[i + 1 + 1]);
      }
    }
  }

  /** The versions a chain passes through. */
  function Stops(start: Version, jumps: seq<Jump>): (r: seq<Version>)
    ensures |r| == |jumps| + 1 && r[0] == start
    ensures forall i | 0 <= i < |jumps| :: r[i + 1] == jumps[i].1
  {
    [start] + seq(|jumps|, i requires 0 <= i < |jumps| => jumps[i].1)
  }

  lemma ChainIsWalk(keys: seq<Jump>, start: Version, end: Version, jumps: seq<Jump>)
    requires IsChain(keys, start, end, jumps)
    ensures var r := Stops(start, jumps); IsWalk(Jumps(keys), r) && r[0] == start && Last(r) == end
  {
    var r := Stops(start, jumps);
    forall i | 0 <= i < |r| - 1 ensures r[i] in Jumps(keys) && r[i + 1] in Jumps(keys)[r[i]] {
      assert jumps[i] in keys;
      assert jumps[i] == (r[i], r[i + 1]);
      JumpIsEdge(keys, r[i], r[i + 1]);
    }
  }

  /** A shortest walk gives a chain of minimum length. */
  lemma ShortestChain(keys: seq<Jump>, start: Version, end: Version, path: seq<Version>)
    requires path != [] && Shortest(Jumps(keys), start, path) && Last(path) == end
    ensures IsChain(keys, start, end, JumpsOf(path))
    ensures forall c | IsChain(keys, start, end, c) :: |JumpsOf(path)| <= |c|
  {
    WalkIsChain(keys, path);
    forall c | IsChain(keys, start, end, c) ensures |JumpsOf(path)| <= |c| {
      ChainIsWalk(keys, start, end, c);
      assert |path| <= |Stops(start, c)|;
    }
  }

  /** Chains exist exactly where walks do. */
  lemma ChainIffReaches(keys: seq<Jump>, start: Version, end: Version)
    ensures (exists c :: IsChain(keys, start, end, c)) <==> Reaches(Jumps(keys), start, end)
  {
    if c :| IsChain(keys, start, end, c) {
      ChainIsWalk(keys, start, end, c);
    }
    if Reaches(Jumps(keys), start, end) {
      var p :| IsWalk(Jumps(keys), p) && p[0] == start && Last(p) == end;
      WalkIsChain(keys, p);
    }
  }

  // ---------------------------------------------------------------- the round as the loop sees it

  lemma NeighborsSnoc(keys: seq<Jump>, j: Jump, v: Version)
    ensures Neighbors(keys + [j], v) == Neighbors(keys, v) + if j.0 == v then [j.1] else []
  {
    if keys == [] {
      assert [j][1..] == [];
    } else {
      assert (keys + [j])[1..] == keys[1..] + [j];
      NeighborsSnoc(keys[1..], j, v);
    }
  }

  lemma NeighborIsEdge(keys: seq<Jump>, v: Version)
    ensures forall n | n in Neighbors(keys, v) :: v in Jumps(keys) && n in Jumps(keys)[v]
    ensures v in Jumps(keys) ==> forall n | n in Jumps(keys)[v] :: n in Neighbors(keys, v)
  {
    forall n | n in Neighbors(keys, v) ensures v in Jumps(keys) && n in Jumps(keys)[v] {
      JumpIsEdge(keys, v, n);
    }
  }

  /** Every version some jump leads to: what the search can still discover is among these. */
  ghost function AllTargets(keys: seq<Jump>): set<Version> {
    set j | j in keys :: j.1
  }

  lemma NeighborsAreTargets(keys: seq<Jump>, v: Version)
    ensures forall n | n in Neighbors(keys, v) :: n in AllTargets(keys)
  {
    forall n | n in Neighbors(keys, v) ensures n in AllTargets(keys) {
      assert (v, n) in keys && (v, n).1 == n;
    }
  }

  /** One more neighbour looked at, not seen before. */
  lemma StepsGrow(path: seq<Version>, nodes: seq<Version>, visited: set<Version>, more: seq<seq<Version>>, n: Version)
    requires Steps(path, nodes, visited, more)
    ensures n !in visited ==> Steps(path, nodes + [n], visited, more + [path + [n]])
    ensures n in visited || n in nodes ==> Steps(path, nodes + [n], visited, more)
  {
    assert forall m :: m in nodes + [n] <==> m in nodes || m == n;
    if n !in visited {
      assert n in nodes + [n];
      assert forall p :: p in more + [path + [n]] <==> p in more || p == path + [n];
    }
  }

  // ---------------------------------------------------------------- which of the shortest walks

  /** The position at which a jump was first registered. */
  function Rank(keys: seq<Jump>, j: Jump): (k: nat)
    ensures j in keys ==> k < |keys| && keys[k] == j
  {
    if keys == [] || keys[0] == j then 0 else 1 + Rank(keys[1..], j)
  }

  /** The walks part after `k` steps, and `p` goes on by a jump registered earlier. */
  ghost predicate PartsAt(keys: seq<Jump>, p: seq<Version>, q: seq<Version>, k: nat) {
    && 0 < k < |p| && k < |q| && (forall i | 0 <= i < k :: p[i] == q[i])
    && Rank(keys, (p[k - 1], p[k])) < Rank(keys, (q[k - 1], q[k]))
  }

  ghost predicate Earlier(keys: seq<Jump>, p: seq<Version>, q: seq<Version>) {
    exists k: nat :: PartsAt(keys, p, q, k)
  }

  lemma EarlierTrans(keys: seq<Jump>, p: seq<Version>, q: seq<Version>, r: seq<Version>)
    requires Earlier(keys, p, q) && Earlier(keys, q, r)
    ensures Earlier(keys, p, r)
  {
    var j: nat :| PartsAt(keys, p, q, j);
    var k: nat :| PartsAt(keys, q, r, k);
    assert PartsAt(keys, p, r, if j < k then j else k);
  }

  /** Going on after having parted changes nothing. */
  lemma EarlierExtends(keys: seq<Jump>, p: seq<Version>, q: seq<Version>, x: Version, y: Version)
    requires Earlier(keys, p, q)
    ensures Earlier(keys, p + [x], q + [y])
  {
    var k: nat :| PartsAt(keys, p, q, k);
    assert PartsAt(keys, p + [x], q + [y], k);
  }

  lemma EarlierSteps(keys: seq<Jump>, path: seq<Version>, m: Version, n: Version)
    requires path != [] && Rank(keys, (Last(path), m)) < Rank(keys, (Last(path), n))
    ensures Earlier(keys, path + [m], path + [n])
  {
    assert PartsAt(keys, path + [m], path + [n], |path|);
  }

  /** Of the shortest walks to its end, `p` always took the jump registered earliest. */
  ghost predicate First(keys: seq<Jump>, start: Version, p: seq<Version>) {
    && Shortest(Jumps(keys), start, p)
    && forall q | IsWalk(Jumps(keys), q) && q[0] == start && Last(q) == Last(p) && |q| == |p| :: q == p || Earlier(keys, p, q)
  }

  /** The queued walks are first, and in that order; the parents of the longer ones come before the head. */
  ghost predicate InOrder(keys: seq<Jump>, start: Version, queue: seq<seq<Version>>) {
    && (forall p | p in queue :: First(keys, start, p))
    && (forall i, j | 0 <= i < j < |queue| :: |queue[i]| < |queue[j]| || Earlier(keys, queue[i], queue[j]))
    && (forall j | 0 <= j < |queue| && |queue[j]| == |queue[0]| + 1 :: Earlier(keys, queue[j][..|queue[0]|], queue[0]))
  }

  /** Each jump is registered once. */
  ghost predicate Once(keys: seq<Jump>) {
    keys == [] || (keys[0] !in keys[1..] && Once(keys[1..]))
  }

  lemma {:induction false} DistinctIsOnce(keys: seq<Jump>)
    requires Distinct(keys)
    ensures Once(keys)
  {
    if keys != [] {
      assert forall i | 1 <= i < |keys| :: keys[0] != keys[i];
      DistinctIsOnce(keys[1..]);
    }
  }

  lemma RankLater(keys: seq<Jump>, j: Jump)
    requires keys != [] && j != keys[0]
    ensures Rank(keys, j) == 1 + Rank(keys[1..], j)
  {
  }

  lemma NeighborsStep(keys: seq<Jump>, v: Version)
    requires keys != []
    ensures Neighbors(keys, v) == (if keys[0].0 == v then [keys[0].1] else []) + Neighbors(keys[1..], v)
    ensures forall i | 0 <= i < |Neighbors(keys[1..], v)| :: (v, Neighbors(keys[1..], v)[i]) in keys[1..]
  {
    var rest := Neighbors(keys[1..], v);
    forall i | 0 <= i < |rest| ensures (v, rest[i]) in keys[1..] {
      assert rest[i] in rest;
    }
  }

  /** Neighbours are listed in the order of their jumps. */
  lemma {:induction false} NeighborsRanked(keys: seq<Jump>, v: Version, a: nat, b: nat)
    requires Once(keys) && a < b < |Neighbors(keys, v)|
    ensures Rank(keys, (v, Neighbors(keys, v)[a])) < Rank(keys, (v, Neighbors(keys, v)[b]))
  {
    var rest, shift := Neighbors(keys[1..], v), if keys[0].0 == v then 1 else 0;
    NeighborsStep(keys, v);
    assert Neighbors(keys, v)[b] == rest[b - shift];
    RankLater(keys, (v, rest[b - shift]));
    if a >= shift {
      assert Neighbors(keys, v)[a] == rest[a - shift];
      RankLater(keys, (v, rest[a - shift]));
      NeighborsRanked(keys[1..], v, a - shift, b - shift);
    }
  }

  /** The walk to a version discovered now is first. */
  lemma NewIsFirst(keys: seq<Jump>, start: Version, end: Version, queue: seq<seq<Version>>, visited: set<Version>, n: Version)
    requires queue != [] && queue[0] != [] && InOrder(keys, start, queue)
    requires QueueOk(Jumps(keys), start, queue) && Frontier(Jumps(keys), start, end, queue, visited)
    requires Last(queue[0]) in Jumps(keys) && n in Jumps(keys)[Last(queue[0])] && n !in visited
    ensures First(keys, start, queue[0] + [n])
  {
    var path := queue[0];
    NewIsShortest(Jumps(keys), start, end, queue, visited, n);
    forall q | IsWalk(Jumps(keys), q) && q[0] == start && Last(q) == n && |q| == |path| + 1
      ensures q == path + [n] || Earlier(keys, path + [n], q)
    {
      OtherIsLater(keys, start, end, queue, visited, n, q);
    }
  }

  /** A walk and its last step. */
  lemma SplitWalk(g: Graph<Version>, q: seq<Version>, front: seq<Version>)
    requires IsWalk(g, q) && |q| >= 2 && front == q[..|q| - 1]
    ensures IsWalk(g, front) && front[0] == q[0] && q == front + [Last(q)]
    ensures Last(front) in g && Last(q) in g[Last(front)]
  {
    PrefixIsWalk(g, q, |q| - 2);
    assert q[|q| - 2] in g && q[|q| - 2 + 1] in g[q[|q| - 2]];
  }

  lemma OtherIsLater(keys: seq<Jump>, start: Version, end: Version, queue: seq<seq<Version>>, visited: set<Version>, n: Version, q: seq<Version>)
    requires queue != [] && queue[0] != [] && InOrder(keys, start, queue)
    requires QueueOk(Jumps(keys), start, queue) && Frontier(Jumps(keys), start, end, queue, visited) && n !in visited
    requires IsWalk(Jumps(keys), q) && q[0] == start && Last(q) == n && |q| == |queue[0]| + 1
    ensures q == queue[0] + [n] || Earlier(keys, queue[0] + [n], q)
  {
    var front := q[..|q| - 1];
    SplitWalk(Jumps(keys), q, front);
    FrontIsNotEarlier(keys, start, end, queue, visited, front, n);
    if front != queue[0] {
      EarlierExtends(keys, queue[0], front, n, n);
    }
  }

  /** The walk to the version before it cannot come before the head of the queue. */
  lemma FrontIsNotEarlier(keys: seq<Jump>, start: Version, end: Version, queue: seq<seq<Version>>, visited: set<Version>,
                          front: seq<Version>, n: Version)
    requires queue != [] && queue[0] != [] && InOrder(keys, start, queue)
    requires QueueOk(Jumps(keys), start, queue) && Frontier(Jumps(keys), start, end, queue, visited)
    requires IsWalk(Jumps(keys), front) && front[0] == start && |front| == |queue[0]| && n !in visited
    requires Last(front) in Jumps(keys) && n in Jumps(keys)[Last(front)]
    ensures front == queue[0] || Earlier(keys, queue[0], front)
  {
    if Last(front) !in visited {
      NewIsFar(Jumps(keys), start, end, queue, visited, front);
    }
    assert Last(front) in visited && Waiting(queue, Last(front));
    var i :| 0 <= i < |queue| && queue[i] != [] && Last(queue[i]) == Last(front);
    assert queue[i] in queue && |queue[0]| <= |queue[i]| <= |front|;
    if i > 0 && front != queue[i] {
      EarlierTrans(keys, queue[0], queue[i], front);
    }
  }

  /** The new walks, with the places of their last versions among the neighbours. */
  ghost predicate Listed(path: seq<Version>, nodes: seq<Version>, more: seq<seq<Version>>, places: seq<nat>) {
    && |places| == |more|
    && (forall i | 0 <= i < |more| :: places[i] < |nodes| && more[i] == path + [nodes[places[i]]])
    && (forall i, j | 0 <= i < j < |places| :: places[i] < places[j])
  }

  lemma NewInOrder(keys: seq<Jump>, path: seq<Version>, nodes: seq<Version>, more: seq<seq<Version>>, places: seq<nat>, i: nat, j: nat)
    requires Distinct(keys) && path != [] && nodes == Neighbors(keys, Last(path)) && Listed(path, nodes, more, places)
    requires i < j < |more|
    ensures Earlier(keys, more[i], more[j])
  {
    DistinctIsOnce(keys);
    NeighborsRanked(keys, Last(path), places[i], places[j]);
    EarlierSteps(keys, path, nodes[places[i]], nodes[places[j]]);
  }

  lemma NewAreFirst(keys: seq<Jump>, start: Version, end: Version, queue: seq<seq<Version>>, visited: set<Version>,
                    nodes: seq<Version>, more: seq<seq<Version>>)
    requires queue != [] && queue[0] != [] && nodes == Neighbors(keys, Last(queue[0]))
    requires QueueOk(Jumps(keys), start, queue) && Frontier(Jumps(keys), start, end, queue, visited)
    requires InOrder(keys, start, queue) && Steps(queue[0], nodes, visited, more)
    ensures forall p | p in more :: First(keys, start, p)
  {
    NeighborIsEdge(keys, Last(queue[0]));
    forall p | p in more ensures First(keys, start, p) {
      var n :| n in nodes && n !in visited && p == queue[0] + [n];
      NewIsFirst(keys, start, end, queue, visited, n);
    }
  }

  lemma RoundKeepsOrder(keys: seq<Jump>, start: Version, end: Version, queue: seq<seq<Version>>, visited: set<Version>,
                        nodes: seq<Version>, more: seq<seq<Version>>, places: seq<nat>)
    requires Distinct(keys) && queue != [] && queue[0] != [] && nodes == Neighbors(keys, Last(queue[0]))
    requires QueueOk(Jumps(keys), start, queue) && Frontier(Jumps(keys), start, end, queue, visited)
    requires InOrder(keys, start, queue) && Steps(queue[0], nodes, visited, more) && Listed(queue[0], nodes, more, places)
    ensures InOrder(keys, start, queue[1..] + more)
  {
    var next := queue[1..] + more;
    NewAreFirst(keys, start, end, queue, visited, nodes, more);
    forall p | p in next ensures First(keys, start, p) {
      assert p in queue[1..] || p in more;
    }
    forall i, j | 0 <= i < j < |next| ensures |next[i]| < |next[j]| || Earlier(keys, next[i], next[j]) {
      NextPair(keys, start, queue, nodes, more, places, i, j);
    }
    forall j | 0 <= j < |next| && |next[j]| == |next[0]| + 1 ensures Earlier(keys, next[j][..|next[0]|], next[0]) {
      NextParent(keys, start, queue, nodes, more, places, j);
    }
  }

  lemma NextPair(keys: seq<Jump>, start: Version, queue: seq<seq<Version>>, nodes: seq<Version>, more: seq<seq<Version>>,
                 places: seq<nat>, i: nat, j: nat)
    requires Distinct(keys) && queue != [] && queue[0] != [] && nodes == Neighbors(keys, Last(queue[0]))
    requires QueueOk(Jumps(keys), start, queue) && InOrder(keys, start, queue) && Listed(queue[0], nodes, more, places)
    requires i < j < |queue| - 1 + |more|
    ensures var next := queue[1..] + more; |next[i]| < |next[j]| || Earlier(keys, next[i], next[j])
  {
    var next, kept := queue[1..] + more, |queue| - 1;
    if j < kept {
      assert next[i] == queue[i + 1] && next[j] == queue[j + 1];
      OldPair(keys, start, queue, i + 1, j + 1);
    } else if i >= kept {
      assert next[i] == more[i - kept] && next[j] == more[j - kept];
      NewInOrder(keys, queue[0], nodes, more, places, i - kept, j - kept);
    } else {
      assert next[i] == queue[i + 1] && next[j] == more[j - kept];
      OldBeforeNew(keys, start, queue, i + 1, nodes[places[j - kept]]);
    }
  }

  lemma OldPair(keys: seq<Jump>, start: Version, queue: seq<seq<Version>>, i: nat, j: nat)
    requires InOrder(keys, start, queue) && i < j < |queue|
    ensures |queue[i]| < |queue[j]| || Earlier(keys, queue[i], queue[j])
  {
  }

  lemma OldBeforeNew(keys: seq<Jump>, start: Version, queue: seq<seq<Version>>, i: nat, n: Version)
    requires queue != [] && queue[0] != [] && QueueOk(Jumps(keys), start, queue) && InOrder(keys, start, queue) && 0 < i < |queue|
    ensures |queue[i]| < |queue[0]| + 1 || Earlier(keys, queue[i], queue[0] + [n])
  {
    var path, p := queue[0], queue[i];
    if |p| == |path| + 1 {
      assert p == p[..|path|] + [Last(p)];
      EarlierExtends(keys, p[..|path|], path, Last(p), n);
    }
  }

  lemma NextParent(keys: seq<Jump>, start: Version, queue: seq<seq<Version>>, nodes: seq<Version>, more: seq<seq<Version>>,
                   places: seq<nat>, j: nat)
    requires queue != [] && queue[0] != []
    requires QueueOk(Jumps(keys), start, queue) && InOrder(keys, start, queue) && Listed(queue[0], nodes, more, places)
    requires var next := queue[1..] + more; j < |next| && |next[j]| == |next[0]| + 1
    ensures var next := queue[1..] + more; Earlier(keys, next[j][..|next[0]|], next[0])
  {
    var path, next := queue[0], queue[1..] + more;
    forall p | p in more ensures |p| == |path| + 1 {
    }
    LengthsOfNext(queue, more, 0);
    LengthsOfNext(queue, more, j);
    assert |next[0]| == |path| && next[0] == queue[1] && Earlier(keys, path, queue[1]);
    if next[j][..|path|] != path {
      EarlierTrans(keys, next[j][..|path|], path, next[0]);
    }
  }

  /** Where the chains part, the jump taken by `c` was registered before the one taken by `d`. */
  ghost predicate TakesEarlier(keys: seq<Jump>, c: seq<Jump>, d: seq<Jump>) {
    exists k, a, b | 0 <= k < |c| && k < |d| && 0 <= a < b < |keys| ::
      c[..k] == d[..k] && keys[a] == c[k] && keys[b] == d[k]
  }

  lemma RanksDiffer(keys: seq<Jump>, c: seq<Jump>, d: seq<Jump>, k: nat)
    requires k < |c| && k < |d| && c[..k] == d[..k] && c[k] in keys && d[k] in keys && Rank(keys, c[k]) < Rank(keys, d[k])
    ensures TakesEarlier(keys, c, d)
  {
    var a, b := Rank(keys, c[k]), Rank(keys, d[k]);
    assert keys[a] == c[k] && keys[b] == d[k];
  }

  /** `c` are the registered jumps along the walk `p`. */
  ghost predicate Along(keys: seq<Jump>, p: seq<Version>, c: seq<Jump>) {
    |p| == |c| + 1 && forall i | 0 <= i < |c| :: c[i] == (p[i], p[i + 1]) && c[i] in keys
  }

  lemma ChainAlongStops(keys: seq<Jump>, start: Version, end: Version, c: seq<Jump>)
    requires IsChain(keys, start, end, c)
    ensures Along(keys, Stops(start, c), c)
  {
    forall i | 0 <= i < |c| ensures c[i] == (Stops(start, c)[i], Stops(start, c)[i + 1]) && c[i] in keys {
      assert i > 0 ==> c[i - 1].1 == c[i - 1 + 1].0;
    }
  }

  lemma JumpsAlongWalk(keys: seq<Jump>, path: seq<Version>)
    requires IsWalk(Jumps(keys), path)
    ensures Along(keys, path, JumpsOf(path))
  {
    WalkUsesJumps(keys, path);
  }

  /** Walks that part give chains that part, one jump earlier. */
  lemma ChainsPart(keys: seq<Jump>, p: seq<Version>, q: seq<Version>, c: seq<Jump>, d: seq<Jump>)
    requires Along(keys, p, c) && Along(keys, q, d) && |p| == |q|
    requires p == q || Earlier(keys, p, q)
    ensures c == d || TakesEarlier(keys, c, d)
  {
    if p == q {
      forall i | 0 <= i < |c| ensures c[i] == d[i] {
        assert c[i] == (p[i], p[i + 1]) && d[i] == (q[i], q[i + 1]);
      }
    } else {
      var k: nat :| PartsAt(keys, p, q, k);
      assert c[k - 1] == (p[k - 1], p[k - 1 + 1]) && d[k - 1] == (q[k - 1], q[k - 1 + 1]);
      forall i | 0 <= i < k - 1 ensures c[i] == d[i] {
        assert p[i] == q[i] && p[i + 1] == q[i + 1];
      }
      assert c[..k - 1] == d[..k - 1];
      RanksDiffer(keys, c, d, k - 1);
    }
  }

  /** A first walk gives the first of the shortest chains. */
  lemma FirstChain(keys: seq<Jump>, start: Version, end: Version, path: seq<Version>, c: seq<Jump>)
    requires path != [] && First(keys, start, path) && Last(path) == end
    requires IsChain(keys, start, end, c) && |c| == |path| - 1
    ensures c == JumpsOf(path) || TakesEarlier(keys, JumpsOf(path), c)
  {
    ChainIsWalk(keys, start, end, c);
    ChainAlongStops(keys, start, end, c);
    JumpsAlongWalk(keys, path);
    var q := Stops(start, c);
    assert q == path || Earlier(keys, path, q);
    ChainsPart(keys, path, q, JumpsOf(path), c);
  }

  lemma SearchStarts(g: Graph<Version>, start: Version, end: Version)
    ensures QueueOk(g, start, [[start]]) && Frontier(g, start, end, [[start]], {start})
  {
    assert [start] in [[start]] && Last([[start]][0]) == start;
  }

  lemma SearchingStarts(keys: seq<Jump>, start: Version, end: Version)
    ensures Searching(keys, start, end, [[start]], {start})
  {
    SearchStarts(Jumps(keys), start, end);
    forall q | IsWalk(Jumps(keys), q) && q[0] == start && |q| == 1 ensures q == [start] {
    }
  }

  /** What holds between two rounds of the search. */
  ghost predicate Searching(keys: seq<Jump>, start: Version, end: Version, queue: seq<seq<Version>>, visited: set<Version>) {
    && QueueOk(Jumps(keys), start, queue) && Frontier(Jumps(keys), start, end, queue, visited)
    && InOrder(keys, start, queue)
  }

  lemma HeadIsFirst(keys: seq<Jump>, start: Version, end: Version, queue: seq<seq<Version>>, visited: set<Version>)
    requires Searching(keys, start, end, queue, visited) && queue != []
    ensures queue[0] != [] && First(keys, start, queue[0])
  {
    assert queue[0] in queue;
  }

  lemma NothingLeft(keys: seq<Jump>, start: Version, end: Version, visited: set<Version>)
    requires Searching(keys, start, end, [], visited)
    ensures !Reaches(Jumps(keys), start, end)
  {
    ExhaustedMeansUnreachable(Jumps(keys), start, end, visited);
  }

  /** A whole round keeps the invariant, and discovers a version or shortens the queue. */
  lemma Round(keys: seq<Jump>, start: Version, end: Version, queue: seq<seq<Version>>, visited: set<Version>,
              nodes: seq<Version>, more: seq<seq<Version>>, places: seq<nat>)
    requires Distinct(keys) && queue != [] && queue[0] != [] && Last(queue[0]) != end && nodes == Neighbors(keys, Last(queue[0]))
    requires Searching(keys, start, end, queue, visited)
    requires Steps(queue[0], nodes, visited, more) && Listed(queue[0], nodes, more, places)
    ensures Searching(keys, start, end, queue[1..] + more, visited + set n | n in nodes)
    ensures var seen := visited + set n | n in nodes;
      AllTargets(keys) - seen < AllTargets(keys) - visited || (seen == visited && more == [])
  {
    NeighborIsEdge(keys, Last(queue[0]));
    NeighborsAreTargets(keys, Last(queue[0]));
    RoundKeepsQueue(Jumps(keys), start, end, queue, visited, nodes, more);
    RoundKeepsFrontier(Jumps(keys), start, end, queue, visited, nodes, more);
    RoundKeepsOrder(keys, start, end, queue, visited, nodes, more, places);
    RoundDiscovers(AllTargets(keys), queue[0], visited, nodes, more);
  }

  lemma EmptyOrHasElement<T>(s: seq<T>)
    ensures s == [] || exists x :: x in s
  {
    if s != [] {
      assert s[0] in s;
    }
  }

  lemma RoundDiscovers(all: set<Version>, path: seq<Version>, visited: set<Version>, nodes: seq<Version>, more: seq<seq<Version>>)
    requires Steps(path, nodes, visited, more) && forall n | n in nodes :: n in all
    ensures var seen := visited + set n | n in nodes;
      all - seen < all - visited || (seen == visited && more == [])
  {
    if n :| n in nodes && n !in visited {
      assert n in all - visited;
    } else {
      assert forall p :: p !in more;
      EmptyOrHasElement(more);
    }
  }

  // ---------------------------------------------------------------- the migrator

  /** Running a chain on a document: each jump's callback in turn, stopping at the first that raises. */
  function Compose<D>(migrations: map<Jump, Callback<D>>, chain: seq<Jump>, data: D): Result<D, MigrationError>
    requires forall j | j in chain :: j in migrations
  {
    if chain == [] then Ok(data)
    else match migrations[chain[0]](data)
         case None => Err(CallbackRaised(chain[0]))
         case Some(next) => Compose(migrations, chain[1..], next)
  }

  lemma {:induction false} ComposeSnoc<D>(migrations: map<Jump, Callback<D>>, chain: seq<Jump>, j: Jump, data: D)
    requires (forall i | i in chain :: i in migrations) && j in migrations
    ensures Compose(migrations, chain + [j], data)
         == match Compose(migrations, chain, data)
            case Err(e) => Err(e)
            case Ok(mid) => match migrations[j](mid) case None => Err(CallbackRaised(j)) case Some(next) => Ok(next)
  {
    if chain == [] {
      assert [j][1..] == [];
    } else {
      assert (chain + [j])[1..] == chain[1..] + [j];
      match migrations[chain[0]](data)
      case None =>
      case Some(next) => ComposeSnoc(migrations, chain[1..], j, next);
    }
  }

  lemma {:induction false} RaisingStays<D>(migrations: map<Jump, Callback<D>>, chain: seq<Jump>, k: nat, data: D)
    requires (forall i | i in chain :: i in migrations) && k <= |chain|
    requires Compose(migrations, chain[..k], data).Err?
    ensures Compose(migrations, chain, data) == Compose(migrations, chain[..k], data)
  {
    if k > 0 {
      assert chain[..k][1..] == chain[1..][..k - 1];
      match migrations[chain[0]](data)
      case None =>
      case Some(next) => RaisingStays(migrations, chain[1..], k - 1, next);
    }
  }

  /**
   What running a chain means: the documents it goes through, each the outcome of its jump's callback on
   the one before, up to the end of the chain or to the callback that raises.
   */
  lemma {:induction false} ComposeMeans<D>(migrations: map<Jump, Callback<D>>, chain: seq<Jump>, data: D) returns (documents: seq<D>)
    requires forall j | j in chain :: j in migrations
    ensures documents != [] && documents[0] == data && |documents| <= |chain| + 1
    ensures forall i | 0 <= i < |documents| - 1 :: migrations[chain[i]](documents[i]) == Some(documents[i + 1])
    ensures |documents| == |chain| + 1 ==> Compose(migrations, chain, data) == Ok(documents[|chain|])
    ensures |documents| <= |chain| ==>
              var k := |documents| - 1;
              migrations[chain[k]](documents[k]) == None && Compose(migrations, chain, data) == Err(CallbackRaised(chain[k]))
  {
    documents := [data];
    if chain != [] {
      match migrations[chain[0]](data)
      case None =>
      case Some(next) =>
        var rest := ComposeMeans(migrations, chain[1..], next);
        documents := [data] + rest;
    }
  }

  class SchemaMigrator<D> {
    /** Keys of `migrations` in the order they were first registered. */
    var keys: seq<Jump>
    var migrations: map<Jump, Callback<D>>

    ghost predicate Valid()
      reads this
    {
      Distinct(keys) && forall j :: j in keys <==> j in migrations
    }

    constructor ()
      ensures Valid() && migrations == map[]
    {
      keys, migrations := [], map[];
    }

    method RegisterMigration(fromVersion: Version, toVersion: Version, callback: Callback<D>)
      requires Valid()
      modifies this
      ensures Valid() && migrations == old(migrations)[(fromVersion, toVersion) := callback]
      ensures keys == if (fromVersion, toVersion) in old(migrations) then old(keys) else old(keys) + [(fromVersion, toVersion)]
    {
      if (fromVersion, toVersion) !in migrations {
        keys := keys + [(fromVersion, toVersion)];
      }
      migrations := migrations[(fromVersion, toVersion) := callback];
    }

    method AdjacencyList() returns (graph: map<Version, seq<Version>>)
      ensures forall v :: (if v in graph then graph[v] else []) == Neighbors(keys, v)
    {
      graph := map[];
      for i := 0 to |keys|
        invariant forall v :: (if v in graph then graph[v] else []) == Neighbors(keys[..i], v)
      {
        var (f, t) := keys[i];
        PrefixStep(keys, i);
        forall v ensures Neighbors(keys[..i + 1], v) == Neighbors(keys[..i], v) + if f == v then [t] else [] {
          NeighborsSnoc(keys[..i], keys[i], v);
        }
        if f !in graph {
          graph := graph[f := []];
        }
        graph := graph[f := graph[f] + [t]];
      }
      assert keys[..|keys|] == keys;
    }

    /**
     The search ends; it returns a chain of minimum length, of those the one that takes the jump registered
     earliest wherever two part, and raises exactly when there is none.
     */
    method FindMigrationPath(start: Version, end: Version) returns (r: Result<seq<Jump>, MigrationError>)
      requires Valid()
      ensures r.Ok? ==> IsChain(keys, start, end, r.value)
      ensures r.Ok? ==> forall c | IsChain(keys, start, end, c) :: |r.value| <= |c|
      ensures r.Ok? ==> forall c | IsChain(keys, start, end, c) && |c| == |r.value| :: c == r.value || TakesEarlier(keys, r.value, c)
      ensures r.Err? <==> !exists c :: IsChain(keys, start, end, c)
      ensures r.Err? ==> r.error == NoPath
    {
      if start == end {
        assert IsChain(keys, start, end, []);
        return Ok([]);
      }
      var graph := AdjacencyList();
      var found := Search(graph, keys, start, end);
      ChainIffReaches(keys, start, end);
      match found
      case None =>
        return Err(NoPath);
      case Some(path) =>
        ShortestChain(keys, start, end, path);
        forall c | IsChain(keys, start, end, c) && |c| == |path| - 1 ensures c == JumpsOf(path) || TakesEarlier(keys, JumpsOf(path), c) {
          FirstChain(keys, start, end, path, c);
        }
        return Ok(JumpsOf(path));
    }

    /** The breadth-first loop: the first of the shortest walks, or the news that there is none. */
    static method Search(graph: map<Version, seq<Version>>, ghost keys: seq<Jump>, start: Version, end: Version)
      returns (found: Option<seq<Version>>)
      requires Distinct(keys) && forall v :: (if v in graph then graph[v] else []) == Neighbors(keys, v)
      ensures found.Some? ==> found.value != [] && First(keys, start, found.value) && Last(found.value) == end
      ensures found.None? ==> !Reaches(Jumps(keys), start, end)
    {
      var queue := [[start]];
      var visited := {start};
      SearchingStarts(keys, start, end);
      while queue != []
        invariant Searching(keys, start, end, queue, visited)
        decreases AllTargets(keys) - visited, |queue|
      {
        var path := queue[0];
        HeadIsFirst(keys, start, end, queue, visited);
        if path[|path| - 1] == end {
          return Some(path);
        }
        var nodes := if Last(path) in graph then graph[Last(path)] else [];
        var more, seen;
        ghost var places;
        more, seen, places := LookAt(path, nodes, visited);
        Round(keys, start, end, queue, visited, nodes, more, places);
        queue, visited := queue[1..] + more, seen;
      }
      NothingLeft(keys, start, end, visited);
      return None;
    }

    /** The inner loop: the new walks to enqueue, and the versions visited afterwards. */
    static method LookAt(path: seq<Version>, nodes: seq<Version>, visited0: set<Version>)
      returns (more: seq<seq<Version>>, visited: set<Version>, ghost places: seq<nat>)
      ensures Listed(path, nodes, more, places)
      ensures Steps(path, nodes, visited0, more) && visited == visited0 + set n | n in nodes
      ensures visited == visited0 ==> more == []
    {
      more, visited, places := [], visited0, [];
      for i := 0 to |nodes|
        invariant Listed(path, nodes, more, places) && forall k | 0 <= k < |places| :: places[k] < i
        invariant Steps(path, nodes[..i], visited0, more)
        invariant visited == visited0 + set n | n in nodes[..i]
      {
        var neighbor := nodes[i];
        PrefixStep(nodes, i);
        StepsGrow(path, nodes[..i], visited0, more, neighbor);
        if neighbor !in visited {
          visited := visited + {neighbor};
          more, places := more + [path + [neighbor]], places + [i];
        }
      }
      assert nodes[..|nodes|] == nodes;
      if more != [] {
        assert more[0] in more;
      }
    }

    /** The result is that of a minimum-length chain's callbacks, one after another. */
    method Migrate(data: D, current: Version, target: Version) returns (r: Result<D, MigrationError>, ghost chain: seq<Jump>)
      requires Valid()
      ensures r == Err(NoPath) <==> !exists c :: IsChain(keys, current, target, c)
      ensures r != Err(NoPath) ==>
        && IsChain(keys, current, target, chain)
        && (forall j | j in chain :: j in migrations)
        && (forall c | IsChain(keys, current, target, c) :: |chain| <= |c|)
        && (forall c | IsChain(keys, current, target, c) && |c| == |chain| :: c == chain || TakesEarlier(keys, chain, c))
        && r == Compose(migrations, chain, data)
    {
      chain := [];
      if current == target {
        assert IsChain(keys, current, target, []);
        return Ok(data), [];
      }
      var found := FindMigrationPath(current, target);
      if found.Err? {
        return Err(NoPath), [];
      }
      var path := found.value;
      chain := path;
      var migrated := data;
      for i := 0 to |path|
        invariant forall j | j in path :: j in migrations
        invariant Compose(migrations, path[..i], data) == Ok(migrated)
      {
        PrefixStep(path, i);
        ComposeSnoc(migrations, path[..i], path[i], data);
        match migrations[path[i]](migrated)
        case None =>
          RaisingStays(migrations, path, i + 1, data);
          return Err(CallbackRaised(path[i])), path;
        case Some(next) =>
          migrated := next;
      }
      assert path[..|path|] == path;
      return Ok(migrated), path;
    }
  }
}
