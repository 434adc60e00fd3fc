/**
 Directed graphs as adjacency maps, reachability by walks, and the well-founded part of a graph.
 A node outside the map's domain is "missing".
 */
module Graphs {
  import opened Prelude

  type Graph<T(==)> = map<T, set<T>>

  /** `p` follows edges from its first to its last node. */
  ghost predicate IsWalk<T(!new)>(g: Graph<T>, p: seq<T>) {
    p != [] && forall i | 0 <= i < |p| - 1 :: p[i] in g && p[i + 1] in g[p[i]]
  }

  function Last<T>(p: seq<T>): T
    requires p != []
  {
    p[|p| - 1]
  }

  ghost predicate Reaches<T(!new)>(g: Graph<T>, a: T, b: T) {
    exists p :: IsWalk(g, p) && p[0] == a && Last(p) == b
  }

  /** Some walk of at least one edge leads from `x` back to `x`. */
  ghost predicate OnCycle<T(!new)>(g: Graph<T>, x: T) {
    exists p :: IsWalk(g, p) && |p| >= 2 && p[0] == x && Last(p) == x
  }

  /** Nothing missing and no cycle can be reached from `x`. */
  ghost predicate Sound<T(!new)>(g: Graph<T>, x: T) {
    forall y :: Reaches(g, x, y) ==> y in g && !OnCycle(g, y)
  }

  // ---------------------------------------------------------------- walks

  lemma ReachesSelf<T(!new)>(g: Graph<T>, x: T)
    ensures Reaches(g, x, x)
  {
    assert IsWalk(g, [x]) && Last([x]) == x;
  }

  /** Two walks that meet can be joined. */
  lemma JoinWalks<T(!new)>(g: Graph<T>, p: seq<T>, q: seq<T>)
    requires IsWalk(g, p) && IsWalk(g, q) && Last(p) == q[0]
    ensures IsWalk(g, p + q[1..]) && (p + q[1..])[0] == p[0] && Last(p + q[1..]) == Last(q)
  {
    var r := p + q[1..];
    forall i | 0 <= i < |r| - 1 ensures r[i] in g && r[i + 1] in g[r[i]] {
      if i < |p| - 1 {
        assert r[i] == p[i] && r[i + 1] == p[i + 1];
      } else {
        assert r[i] == q[i - |p| + 1] && r[i + 1] == q[i - |p| + 2];
      }
    }
  }

  lemma ReachesTrans<T(!new)>(g: Graph<T>, a: T, b: T, c: T)
    requires Reaches(g, a, b) && Reaches(g, b, c)
    ensures Reaches(g, a, c)
  {
    var p :| IsWalk(g, p) && p[0] == a && Last(p) == b;
    var q :| IsWalk(g, q) && q[0] == b && Last(q) == c;
    JoinWalks(g, p, q);
  }

  lemma EdgeReaches<T(!new)>(g: Graph<T>, a: T, b: T)
    requires a in g && b in g[a]
    ensures Reaches(g, a, b)
  {
    assert IsWalk(g, [a, b]) && Last([a, b]) == b;
  }

  /** The first edge of a walk that goes somewhere. */
  lemma FirstEdge<T(!new)>(g: Graph<T>, p: seq<T>)
    requires IsWalk(g, p) && |p| >= 2
    ensures p[0] in g && p[1] in g[p[0]] && IsWalk(g, p[1..]) && Reaches(g, p[1], Last(p))
  {
    assert p[0 + 1] in g[p[0]];
    var q := p[1..];
    forall i | 0 <= i < |q| - 1 ensures q[i] in g && q[i + 1] in g[q[i]] {
      assert q[i] == p[i + 1] && q[i + 1] == p[i + 1 + 1];
    }
    assert q[0] == p[1] && Last(q) == Last(p);
  }

  /** What is reachable is the node itself or reachable from a successor. */
  lemma FirstStep<T(!new)>(g: Graph<T>, x: T, y: T)
    requires Reaches(g, x, y)
    ensures y == x || (x in g && exists s :: s in g[x] && Reaches(g, s, y))
  {
    var p :| IsWalk(g, p) && p[0] == x && Last(p) == y;
    if |p| >= 2 {
      FirstEdge(g, p);
    }
  }

  /** An edge back to a node that reaches it closes a cycle. */
  lemma ClosesCycle<T(!new)>(g: Graph<T>, a: T, b: T)
    requires a in g && b in g[a] && Reaches(g, b, a)
    ensures OnCycle(g, a)
  {
    var q :| IsWalk(g, q) && q[0] == b && Last(q) == a;
    assert IsWalk(g, [a, b]);
    JoinWalks(g, [a, b], q);
    assert |[a, b] + q[1..]| >= 2;
  }

  // ---------------------------------------------------------------- the sound part

  /** A node is sound exactly when it is present and all its successors are. */
  lemma SoundStep<T(!new)>(g: Graph<T>, x: T)
    ensures Sound(g, x) <==> x in g && forall s | s in g[x] :: Sound(g, s)
  {
    if Sound(g, x) {
      ReachesSelf(g, x);
      forall s | s in g[x] ensures Sound(g, s) {
        EdgeReaches(g, x, s);
        forall y | Reaches(g, s, y) ensures y in g && !OnCycle(g, y) {
          ReachesTrans(g, x, s, y);
        }
      }
    } else if x in g && forall s | s in g[x] :: Sound(g, s) {
      SoundFromSuccessors(g, x);
    }
  }

  lemma SoundFromSuccessors<T(!new)>(g: Graph<T>, x: T)
    requires x in g && forall s | s in g[x] :: Sound(g, s)
    ensures Sound(g, x)
  {
    forall y | Reaches(g, x, y) ensures y in g && !OnCycle(g, y) {
      var p :| IsWalk(g, p) && p[0] == x && Last(p) == y;
      if |p| >= 2 {
        FirstEdge(g, p);
      } else {
        NotOnCycle(g, x);
      }
    }
  }

  /** A node all of whose successors are sound is on no cycle. */
  lemma NotOnCycle<T(!new)>(g: Graph<T>, x: T)
    requires x in g && forall s | s in g[x] :: Sound(g, s)
    ensures !OnCycle(g, x)
  {
    forall p | IsWalk(g, p) && |p| >= 2 && p[0] == x ensures Last(p) != x {
      FirstEdge(g, p);
      ClosesCycleAt(g, x, p[1]);
      ReachesSelf(g, p[1]);
    }
  }

  /** If `a`'s successor `b` reaches back to `a`, then `b` is on a cycle. */
  lemma ClosesCycleAt<T(!new)>(g: Graph<T>, a: T, b: T)
    requires a in g && b in g[a]
    ensures Reaches(g, b, a) ==> OnCycle(g, b)
  {
    if Reaches(g, b, a) {
      var q :| IsWalk(g, q) && q[0] == b && Last(q) == a;
      assert IsWalk(g, [a, b]);
      JoinWalks(g, q, [a, b]);
      assert |q + [a, b][1..]| >= 2;
    }
  }

  /** What the sound node `x` can reach: a finite set, since it stays in the domain. */
  ghost function ReachSet<T(!new)>(g: Graph<T>, x: T): set<T> {
    set y | y in g.Keys && Reaches(g, x, y)
  }

  /** Along an edge out of a node on no cycle the reachable set shrinks: recursion on it terminates. */
  lemma ReachSetShrinks<T(!new)>(g: Graph<T>, x: T, s: T)
    requires !OnCycle(g, x) && x in g && s in g[x]
    ensures ReachSet(g, s) < ReachSet(g, x)
  {
    EdgeReaches(g, x, s);
    ReachesSelf(g, x);
    forall y | y in ReachSet(g, s) ensures y in ReachSet(g, x) {
      ReachesTrans(g, x, s, y);
    }
    assert Reaches(g, s, x) ==> OnCycle(g, x) by {
      if Reaches(g, s, x) {
        ClosesCycle(g, x, s);
      }
    }
    assert x in ReachSet(g, x) && x !in ReachSet(g, s);
  }

  /** A smaller set has fewer elements. */
  lemma FewerElements<T>(a: set<T>, b: set<T>)
    requires a < b
    ensures |a| < |b|
  {
    var x :| x in b && x !in a;
    var rest := b - {x};
    assert a <= rest;
    NoMoreElements(a, rest);
  }

  lemma {:induction false} NoMoreElements<T>(a: set<T>, b: set<T>)
    requires a <= b
    ensures |a| <= |b|
    decreases b
  {
    if b != {} {
      var x :| x in b;
      NoMoreElements(a - {x}, b - {x});
    }
  }

  // ---------------------------------------------------------------- trimming below sound nodes

  /** `h` is `g` with the edges out of some sound nodes removed. */
  ghost predicate Trimmed<T(!new)>(g: Graph<T>, h: Graph<T>) {
    && h.Keys == g.Keys
    && forall k | k in g :: h[k] == g[k] || (h[k] == {} && Sound(g, k))
  }

  /** A walk survives the trimming, or passes through a trimmed node. */
  lemma {:induction false} TrimmedWalk<T(!new)>(g: Graph<T>, h: Graph<T>, p: seq<T>)
    requires Trimmed(g, h) && IsWalk(g, p)
    ensures IsWalk(h, p) || exists k :: k in g && h[k] != g[k] && Reaches(g, k, Last(p))
  {
    if |p| >= 2 {
      FirstEdge(g, p);
      if h[p[0]] != g[p[0]] {
        assert Reaches(g, p[0], Last(p));
      } else {
        TrimmedWalk(g, h, p[1..]);
        if IsWalk(h, p[1..]) {
          Prepend(h, p);
        }
      }
    }
  }

  lemma Prepend<T(!new)>(g: Graph<T>, p: seq<T>)
    requires |p| >= 2 && p[0] in g && p[1] in g[p[0]] && IsWalk(g, p[1..])
    ensures IsWalk(g, p)
  {
    forall i | 0 <= i < |p| - 1 ensures p[i] in g && p[i + 1] in g[p[i]] {
      if i > 0 {
        assert p[1..][i - 1] == p[i] && p[1..][i - 1 + 1] == p[i + 1];
      }
    }
  }

  lemma TrimmedIsPart<T(!new)>(g: Graph<T>, h: Graph<T>, p: seq<T>)
    requires Trimmed(g, h) && IsWalk(h, p)
    ensures IsWalk(g, p)
  {
  }

  /** Trimming below sound nodes changes nothing about who is sound. */
  lemma TrimmedSound<T(!new)>(g: Graph<T>, h: Graph<T>, x: T)
    requires Trimmed(g, h)
    ensures Sound(g, x) <==> Sound(h, x)
  {
    if Sound(g, x) {
      forall y | Reaches(h, x, y) ensures y in h && !OnCycle(h, y) {
        var p :| IsWalk(h, p) && p[0] == x && Last(p) == y;
        TrimmedIsPart(g, h, p);
        assert Reaches(g, x, y);
        TrimmedCycle(g, h, y);
      }
    }
    if Sound(h, x) {
      forall y | Reaches(g, x, y) ensures y in g && !OnCycle(g, y) {
        TrimmedReach(g, h, x, y);
      }
    }
  }

  lemma TrimmedCycle<T(!new)>(g: Graph<T>, h: Graph<T>, y: T)
    requires Trimmed(g, h)
    ensures OnCycle(h, y) ==> OnCycle(g, y)
  {
    if OnCycle(h, y) {
      var c :| IsWalk(h, c) && |c| >= 2 && c[0] == y && Last(c) == y;
      TrimmedIsPart(g, h, c);
    }
  }

  lemma CycleSurvives<T(!new)>(g: Graph<T>, h: Graph<T>, y: T)
    requires Trimmed(g, h)
    ensures OnCycle(g, y) ==> OnCycle(h, y) || exists k :: k in g && h[k] != g[k] && Reaches(g, k, y)
  {
    if OnCycle(g, y) {
      var c :| IsWalk(g, c) && |c| >= 2 && c[0] == y && Last(c) == y;
      TrimmedWalk(g, h, c);
    }
  }

  lemma TrimmedReach<T(!new)>(g: Graph<T>, h: Graph<T>, x: T, y: T)
    requires Trimmed(g, h) && Sound(h, x) && Reaches(g, x, y)
    ensures y in g && !OnCycle(g, y)
  {
    var p :| IsWalk(g, p) && p[0] == x && Last(p) == y;
    TrimmedWalk(g, h, p);
    if IsWalk(h, p) {
      assert Reaches(h, x, y);
      CycleSurvives(g, h, y);
    }
  }

  // ---------------------------------------------------------------- cycles from counting

  /** In a finite set where every node has a successor inside, some node is on a cycle. */
  lemma NoExitHasCycle<T(!new)>(g: Graph<T>, stuck: set<T>) returns (x: T)
    requires stuck != {} && stuck <= g.Keys
    requires forall y | y in stuck :: g[y] * stuck != {}
    ensures x in stuck && OnCycle(g, x)
  {
    var start :| start in stuck;
    assert IsWalk(g, [start]);
    x := ExtendWalk(g, stuck, [start]);
  }

  lemma ExtendWalk<T(!new)>(g: Graph<T>, stuck: set<T>, p: seq<T>) returns (x: T)
    requires stuck <= g.Keys
    requires forall y | y in stuck :: g[y] * stuck != {}
    requires IsWalk(g, p) && Distinct(p) && forall y | y in p :: y in stuck
    ensures x in stuck && OnCycle(g, x)
    decreases |stuck| - |p|
  {
    DistinctFits(p, stuck);
    assert Last(p) in p;
    var s :| s in g[Last(p)] * stuck;
    var q := p + [s];
    assert IsWalk(g, q) by {
      forall i | 0 <= i < |q| - 1 ensures q[i] in g && q[i + 1] in g[q[i]] {
        if i < |p| - 1 {
          assert q[i] == p[i] && q[i + 1] == p[i + 1];
        }
      }
    }
    if s in p {
      var k :| 0 <= k < |p| && p[k] == s;
      var c := q[k..];
      forall i | 0 <= i < |c| - 1 ensures c[i] in g && c[i + 1] in g[c[i]] {
        assert c[i] == q[k + i] && c[i + 1] == q[k + i + 1];
      }
      assert IsWalk(g, c) && |c| >= 2 && c[0] == s && Last(c) == s;
      x := s;
    } else {
      DistinctFits(q, stuck);
      x := ExtendWalk(g, stuck, q);
    }
  }

  /** A duplicate-free sequence drawn from a set is no longer than the set. */
  lemma {:induction false} DistinctFits<T(!new)>(p: seq<T>, s: set<T>)
    requires Distinct(p) && forall y | y in p :: y in s
    ensures |p| <= |s|
  {
    if p != [] {
      assert forall y | y in p[1..] :: y in p && y != p[0];
      DistinctFits(p[1..], s - {p[0]});
    }
  }
}
