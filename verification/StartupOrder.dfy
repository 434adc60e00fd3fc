/**
 Startup orders of a set of services: what they are, when one exists, and which one Kahn's
 algorithm with a sorted ready list has to produce.
 */
module StartupOrder {
  import opened Prelude
  import opened Texts
  import opened Graphs

  /** The declared dependencies of each service, as lists: repetitions and self references allowed. */
  type Deps = map<string, seq<string>>

  /** Every dependency is a registered service. */
  ghost predicate Closed(deps: Deps) {
    forall n, d | n in deps && d in deps[n] :: d in deps
  }

  ghost function DepGraph(deps: Deps): Graph<string> {
    map n | n in deps :: set d | d in deps[n]
  }

  ghost predicate Cyclic(deps: Deps) {
    exists x :: OnCycle(DepGraph(deps), x)
  }

  ghost predicate MetBy(ds: seq<string>, done: seq<string>) {
    forall d | d in ds :: d in done
  }

  /** Every service comes after all its dependencies. */
  ghost predicate Respects(deps: Deps, p: seq<string>) {
    forall k | 0 <= k < |p| :: p[k] in deps && MetBy(deps[p[k]], p[..k])
  }

  /** All services, each once, each after its dependencies. */
  ghost predicate IsOrder(deps: Deps, p: seq<string>) {
    Distinct(p) && Respects(deps, p) && forall n | n in deps :: n in p
  }

  /** Lexicographic comparison of two name lists. */
  ghost predicate ListLeq(a: seq<string>, b: seq<string>) {
    a <= b || exists k :: FirstDifference(a, b, k)
  }

  ghost predicate FirstDifference(a: seq<string>, b: seq<string>, k: nat) {
    k < |a| && k < |b| && a[..k] == b[..k] && a[k] != b[k] && Leq(a[k], b[k])
  }

  /** Each position holds the least of the services that could come next. */
  ghost predicate Greedy(deps: Deps, p: seq<string>) {
    forall k, n | 0 <= k < |p| && n in deps && n !in p[..k] && MetBy(deps[n], p[..k]) :: Leq(p[k], n)
  }

  /** The greedy order is the least of all orders. */
  lemma GreedyIsLeast(deps: Deps, p: seq<string>, q: seq<string>)
    requires IsOrder(deps, p) && Greedy(deps, p) && IsOrder(deps, q)
    ensures ListLeq(p, q)
  {
    SameLength(deps, p, q);
    if p != q {
      var k := Disagreement(p, q);
      NextIsReady(deps, q, k);
      GreedyAt(deps, p, k, q[k]);
      assert FirstDifference(p, q, k);
    }
  }

  lemma NextIsReady(deps: Deps, q: seq<string>, k: nat)
    requires Respects(deps, q) && Distinct(q) && k < |q|
    ensures q[k] in deps && q[k] !in q[..k] && MetBy(deps[q[k]], q[..k])
  {
  }

  lemma GreedyAt(deps: Deps, p: seq<string>, k: nat, n: string)
    requires Greedy(deps, p) && k < |p| && n in deps && n !in p[..k] && MetBy(deps[n], p[..k])
    ensures Leq(p[k], n)
  {
  }

  lemma SameLength(deps: Deps, p: seq<string>, q: seq<string>)
    requires IsOrder(deps, p) && IsOrder(deps, q)
    ensures |p| == |q|
  {
    forall x | x in p ensures x in deps.Keys {
      var i :| 0 <= i < |p| && p[i] == x;
    }
    forall x | x in q ensures x in deps.Keys {
      var i :| 0 <= i < |q| && q[i] == x;
    }
    FitsExactly(p, deps.Keys);
    FitsExactly(q, deps.Keys);
  }

  lemma {:induction false} FitsExactly(p: seq<string>, s: set<string>)
    requires Distinct(p) && forall x :: x in p <==> x in s
    ensures |p| == |s|
  {
    if p == [] {
      assert s == {};
    } else {
      assert forall x | x in p[1..] :: x in p && x != p[0];
      assert forall x | x in p && x != p[0] :: x in p[1..];
      FitsExactly(p[1..], s - {p[0]});
    }
  }

  lemma Disagreement(p: seq<string>, q: seq<string>) returns (k: nat)
    requires |p| == |q| && p != q
    ensures k < |p| && p[..k] == q[..k] && p[k] != q[k]
  {
    k := 0;
    while p[k] == q[k]
      invariant k < |p| && p[..k] == q[..k]
      invariant exists i :: k <= i < |p| && p[i] != q[i]
      decreases |p| - k
    {
      assert p[..k + 1] == p[..k] + [p[k]] && q[..k + 1] == q[..k] + [q[k]];
      k := k + 1;
    }
  }

  // ---------------------------------------------------------------- orders and cycles

  /** Along a walk in the dependency graph, positions in a respected order only go down. */
  lemma {:induction false} WalkGoesBack(deps: Deps, p: seq<string>, walk: seq<string>, k: nat)
    requires Respects(deps, p) && Distinct(p) && IsWalk(DepGraph(deps), walk)
    requires k < |p| && p[k] == walk[0]
    ensures exists i :: 0 <= i <= k && p[i] == Last(walk) && (|walk| >= 2 ==> i < k)
    decreases |walk|
  {
    if |walk| >= 2 {
      FirstEdge(DepGraph(deps), walk);
      assert walk[1] in deps[p[k]];
      assert walk[1] in p[..k];
      var i :| 0 <= i < k && p[..k][i] == walk[1];
      WalkGoesBack(deps, p, walk[1..], i);
      assert Last(walk[1..]) == Last(walk);
    }
  }

  /** Nothing in a respected order is on a cycle. */
  lemma OrderedNotOnCycle(deps: Deps, p: seq<string>, x: string)
    requires Respects(deps, p) && Distinct(p) && x in p
    ensures !OnCycle(DepGraph(deps), x)
  {
    var k :| 0 <= k < |p| && p[k] == x;
    forall walk | IsWalk(DepGraph(deps), walk) && |walk| >= 2 && walk[0] == x ensures Last(walk) != x {
      WalkGoesBack(deps, p, walk, k);
      var i :| 0 <= i < k && p[i] == Last(walk);
    }
  }

  /** An order exists only without cycles. */
  lemma OrderMeansAcyclic(deps: Deps, p: seq<string>)
    requires IsOrder(deps, p) && Closed(deps)
    ensures !Cyclic(deps)
  {
    forall x ensures !OnCycle(DepGraph(deps), x) {
      if x in p {
        OrderedNotOnCycle(deps, p, x);
      } else {
        assert x !in DepGraph(deps);
      }
    }
  }

  /** When what is left has nothing ready, some of it is on a cycle. */
  lemma StuckMeansCyclic(deps: Deps, p: seq<string>)
    requires Closed(deps)
    requires exists n :: n in deps && n !in p
    requires forall n | n in deps && n !in p :: !MetBy(deps[n], p)
    ensures Cyclic(deps)
  {
    var g := DepGraph(deps);
    var stuck := set n | n in deps && n !in p;
    forall y | y in stuck ensures g[y] * stuck != {} {
      var d :| d in deps[y] && d !in p;
      assert d in g[y] * stuck;
    }
    var m :| m in deps && m !in p;
    assert m in stuck;
    var x := NoExitHasCycle(g, stuck);
  }
}
