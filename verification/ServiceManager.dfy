/** The runtime service manager: registration, startup order, initialisation and shutdown. */
module ServiceManager {
  import opened Prelude
  import opened Tallies
  import opened Texts
  import opened Graphs
  import opened StartupOrder
  import opened Lifecycle

  datatype OrderError = Missing(service: string, dependency: string) | Circular

  // ---------------------------------------------------------------- counting unmet dependencies

  /** How many entries of `ds` are not in `done`. */
  function Unmet(ds: seq<string>, done: seq<string>): nat {
    if ds == [] then 0 else (if ds[0] in done then 0 else 1) + Unmet(ds[1..], done)
  }

  lemma {:induction false} UnmetZero(ds: seq<string>, done: seq<string>)
    ensures Unmet(ds, done) == 0 <==> MetBy(ds, done)
  {
    if ds != [] {
      UnmetZero(ds[1..], done);
      assert forall d | d in ds :: d == ds[0] || d in ds[1..];
      assert ds[0] in ds && forall d | d in ds[1..] :: d in ds;
    }
  }

  /** Finishing `x` meets every entry that names it. */
  lemma {:induction false} UnmetStep(ds: seq<string>, done: seq<string>, x: string)
    requires x !in done
    ensures Unmet(ds, done + [x]) + Times(ds, x) == Unmet(ds, done)
  {
    if ds != [] {
      UnmetStep(ds[1..], done, x);
      assert ds[0] in done + [x] <==> ds[0] in done || ds[0] == x;
    }
  }

  lemma {:induction false} UnmetOfNothing(ds: seq<string>)
    ensures Unmet(ds, []) == |ds|
  {
    if ds != [] {
      UnmetOfNothing(ds[1..]);
    }
  }

  // ---------------------------------------------------------------- Kahn's algorithm

  /** `graph` lists, for each service, its dependents, once for each time they declare it. */
  ghost predicate Inverts(graph: map<string, seq<string>>, deps: Deps, names: seq<string>) {
    && graph.Keys == deps.Keys
    && forall d, n | d in graph :: Times(graph[d], n) == if n in deps && n in names then Times(deps[n], d) else 0
  }

  /** `graph` is `graph0` with `name` listed under each entry of `part` once more. */
  ghost predicate Extends(graph: map<string, seq<string>>, graph0: map<string, seq<string>>, name: string, part: seq<string>) {
    && graph.Keys == graph0.Keys
    && forall d, n | d in graph :: Times(graph[d], n) == Times(graph0[d], n) + if n == name then Times(part, d) else 0
  }

  lemma OneMoreEdge(graph: map<string, seq<string>>, graph0: map<string, seq<string>>, name: string, part: seq<string>, x: string)
    requires Extends(graph, graph0, name, part) && x in graph
    ensures Extends(graph[x := graph[x] + [name]], graph0, name, part + [x])
  {
    var after := graph[x := graph[x] + [name]];
    forall d, n | d in after
      ensures Times(after[d], n) == Times(graph0[d], n) + if n == name then Times(part + [x], d) else 0
    {
      TimesAppend(graph[x], name, n);
      TimesAppend(part, x, d);
    }
  }

  lemma AllEdges(graph: map<string, seq<string>>, graph0: map<string, seq<string>>, deps: Deps, before: seq<string>, name: string)
    requires name in deps && name !in before && Inverts(graph0, deps, before)
    requires Extends(graph, graph0, name, deps[name])
    ensures Inverts(graph, deps, before + [name])
  {
  }

  /** `indegree` is `indegree0` with `name`'s entry raised by `k`. */
  ghost predicate Raised(indegree: map<string, int>, indegree0: map<string, int>, name: string, k: int) {
    && indegree.Keys == indegree0.Keys
    && forall n | n in indegree :: indegree[n] == indegree0[n] + if n == name then k else 0
  }

  lemma RaiseOne(indegree: map<string, int>, indegree0: map<string, int>, name: string, k: int)
    requires Raised(indegree, indegree0, name, k) && name in indegree
    ensures Raised(indegree[name := indegree[name] + 1], indegree0, name, k + 1)
  {
  }

  /** The indegrees of the services in `part` are complete, the others zero. */
  ghost predicate Filled(indegree: map<string, int>, deps: Deps, part: seq<string>) {
    && indegree.Keys == deps.Keys
    && forall n | n in deps :: indegree[n] == if n in part then |deps[n]| else 0
  }

  lemma FillOne(before: map<string, int>, after: map<string, int>, deps: Deps, part: seq<string>, name: string)
    requires Filled(before, deps, part) && name in deps && name !in part
    requires Raised(after, before, name, |deps[name]|)
    ensures Filled(after, deps, part + [name])
  {
  }

  lemma NotBefore(names: seq<string>, i: nat)
    requires Distinct(names) && i < |names|
    ensures names[i] !in names[..i] && names[..i + 1] == names[..i] + [names[i]]
  {
  }

  /** Taking out a service nobody depends on. */
  lemma ForgetKeepsClosed(deps: Deps, states: States, name: string)
    requires forall n | n in deps :: name !in deps[n]
    ensures Closed(deps) ==> Closed(deps - {name})
    ensures ActiveClosed(deps, states) ==> ActiveClosed(deps - {name}, states - {name})
  {
  }

  /** The ready list: every service not yet ordered whose indegree is zero, once. */
  ghost predicate ReadyList(ready: seq<string>, indegree: map<string, int>, order: seq<string>) {
    && Distinct(ready)
    && forall n :: n in ready <==> n in indegree && n !in order && indegree[n] == 0
  }

  /** The indegrees count unmet dependencies, plus what the current sweep has not yet taken off. */
  ghost predicate Counts(indegree: map<string, int>, deps: Deps, order: seq<string>, pending: seq<string>) {
    && indegree.Keys == deps.Keys
    && forall n | n in deps :: indegree[n] == Unmet(deps[n], order) + Times(pending, n)
  }

  /** What holds between two rounds of the main loop. */
  ghost predicate Round(deps: Deps, order: seq<string>, indegree: map<string, int>, ready: seq<string>) {
    && Distinct(order) && Respects(deps, order) && Greedy(deps, order)
    && Counts(indegree, deps, order, []) && ReadyList(ready, indegree, order)
  }

  /** A service is ready exactly when it is not ordered yet and its dependencies are. */
  lemma ReadyMeansMet(deps: Deps, order: seq<string>, indegree: map<string, int>, ready: seq<string>, n: string)
    requires Round(deps, order, indegree, ready)
    ensures n in ready <==> n in deps && n !in order && MetBy(deps[n], order)
  {
    if n in deps {
      UnmetZero(deps[n], order);
      assert indegree[n] == Unmet(deps[n], order) + Times([], n);
    }
  }

  /** Ordering the least ready service keeps the order respected and greedy. */
  lemma OrderGrows(deps: Deps, order: seq<string>, indegree: map<string, int>, ready: seq<string>)
    requires Round(deps, order, indegree, ready) && Ascending(ready) && ready != []
    ensures ready[0] in deps && ready[0] !in order
    ensures Distinct(order + [ready[0]]) && Respects(deps, order + [ready[0]]) && Greedy(deps, order + [ready[0]])
  {
    var node := ready[0];
    var after := order + [node];
    assert node in ready;
    ReadyMeansMet(deps, order, indegree, ready, node);
    forall k | 0 <= k < |after| ensures after[k] in deps && MetBy(deps[after[k]], after[..k]) {
      assert after[..k] == order[..k];
      assert order[..|order|] == order;
    }
    forall k, n | 0 <= k < |after| && n in deps && n !in after[..k] && MetBy(deps[n], after[..k]) ensures Leq(after[k], n) {
      assert after[..k] == order[..k];
      if k == |order| {
        assert order[..k] == order;
        ReadyMeansMet(deps, order, indegree, ready, n);
        LeqReflexive(node);
      }
    }
  }

  /** Only services still to come depend on the one just ordered. */
  lemma DependentsComeLater(deps: Deps, names: seq<string>, order: seq<string>, graph: map<string, seq<string>>, node: string, n: string)
    requires Inverts(graph, deps, names) && node in deps && node !in order
    requires Respects(deps, order) && MetBy(deps[node], order) && n in graph[node]
    ensures n in deps && n !in order + [node]
  {
    TimesZero(graph[node], n);
    assert n in deps && Times(deps[n], node) > 0;
    TimesZero(deps[n], node);
    OrderedAreMet(deps, order, n);
  }

  lemma OrderedAreMet(deps: Deps, order: seq<string>, n: string)
    requires Respects(deps, order) && n in deps
    ensures n in order ==> MetBy(deps[n], order)
  {
    if n in order {
      var k :| 0 <= k < |order| && order[k] == n;
      assert MetBy(deps[n], order[..k]);
    }
  }

  /** After ordering `node`, the sweep over its dependents is what the indegrees still owe. */
  lemma SweepPending(deps: Deps, names: seq<string>, order: seq<string>, graph: map<string, seq<string>>,
                     indegree: map<string, int>, node: string)
    requires Inverts(graph, deps, names) && (forall n :: n in names <==> n in deps)
    requires Counts(indegree, deps, order, []) && node in deps && node !in order
    ensures Counts(indegree, deps, order + [node], graph[node])
  {
    forall n | n in deps ensures indegree[n] == Unmet(deps[n], order + [node]) + Times(graph[node], n) {
      UnmetStep(deps[n], order, node);
      assert indegree[n] == Unmet(deps[n], order) + Times([], n);
      assert Times(graph[node], n) == Times(deps[n], node);
    }
  }

  lemma ReadyRest(indegree: map<string, int>, order: seq<string>, ready: seq<string>)
    requires ReadyList(ready, indegree, order) && ready != []
    ensures ReadyList(ready[1..], indegree, order + [ready[0]])
  {
    forall n ensures n in ready[1..] <==> n in ready && n != ready[0] {
      assert forall i | 0 <= i < |ready| - 1 :: ready[1..][i] == ready[i + 1];
    }
  }

  lemma SortedReady(ready: seq<string>, indegree: map<string, int>, order: seq<string>)
    requires ReadyList(ready, indegree, order)
    ensures ReadyList(Sort(ready), indegree, order) && Ascending(Sort(ready))
  {
    SortAscending(ready);
    SortDistinct(ready);
    forall n ensures n in Sort(ready) <==> n in ready {
      SortSameMembers(ready, n);
    }
  }

  /** When nothing is ready any more, either everything is ordered or there is a cycle. */
  lemma Finished(deps: Deps, names: seq<string>, order: seq<string>, indegree: map<string, int>)
    requires Closed(deps) && Distinct(names) && (forall n :: n in names <==> n in deps)
    requires Round(deps, order, indegree, [])
    ensures |order| < |names| ==> Cyclic(deps)
    ensures |order| >= |names| ==> IsOrder(deps, order)
  {
    FitsExactly(names, deps.Keys);
    forall n ensures !(n in deps && n !in order && MetBy(deps[n], order)) {
      ReadyMeansMet(deps, order, indegree, [], n);
    }
    forall y | y in order ensures y in deps.Keys {
      var k :| 0 <= k < |order| && order[k] == y;
    }
    if n :| n in deps && n !in order {
      StuckMeansCyclic(deps, order);
      DistinctFits(order, deps.Keys - {n});
    } else {
      FitsExactly(order, deps.Keys);
    }
  }

  lemma LeastOrder(deps: Deps, p: seq<string>)
    requires IsOrder(deps, p) && Greedy(deps, p)
    ensures forall q | IsOrder(deps, q) :: ListLeq(p, q)
  {
    forall q | IsOrder(deps, q) ensures ListLeq(p, q) {
      GreedyIsLeast(deps, p, q);
    }
  }

  /** `d`, declared by `n`, is not registered, and every dependency declared before it is: in registration order. */
  ghost predicate FirstMissing(names: seq<string>, deps: Deps, n: string, d: string) {
    exists i, k | 0 <= i < |names| && names[i] in deps && 0 <= k < |deps[names[i]]| ::
      && names[i] == n && deps[names[i]][k] == d && d !in deps
      && (forall m, e | m in names[..i] && m in deps && e in deps[m] :: e in deps)
      && (forall e | e in deps[names[i]][..k] :: e in deps)
  }

  class RuntimeServiceManager {
    var names: seq<string>
    var deps: Deps
    var states: map<string, ServiceState>
    var isInitialized: bool

    ghost predicate Valid()
      reads this
    {
      && Distinct(names)
      && (forall n :: n in names <==> n in deps)
      && states.Keys == deps.Keys
    }

    constructor ()
      ensures Valid() && names == [] && !isInitialized
    {
      names, deps, states, isInitialized := [], map[], map[], false;
    }

    method RegisterService(name: string, dependencies: seq<string>) returns (ok: bool)
      requires Valid()
      modifies this
      ensures Valid() && isInitialized == old(isInitialized)
      ensures ok <==> name !in old(deps)
      ensures ok ==> names == old(names) + [name] && deps == old(deps)[name := dependencies]
      ensures ok ==> states == old(states)[name := Uninitialized]
      ensures !ok ==> names == old(names) && deps == old(deps) && states == old(states)
    {
      if name in deps {
        return false;
      }
      names := names + [name];
      deps := deps[name := dependencies];
      states := states[name := Uninitialized];
      return true;
    }

    /**
     `unregister_service`: refused for an unknown service and while any service, itself included,
     declares a dependency on it.
     */
    method UnregisterService(name: string) returns (ok: bool)
      requires Valid()
      modifies this
      ensures Valid() && isInitialized == old(isInitialized)
      ensures ok <==> name in old(deps) && forall n | n in old(deps) :: name !in old(deps)[n]
      ensures ok ==> deps == old(deps) - {name} && states == old(states) - {name}
      ensures ok ==> names == Drop(old(names), name)
      ensures ok && Closed(old(deps)) ==> Closed(deps)
      ensures ok && ActiveClosed(old(deps), old(states)) ==> ActiveClosed(deps, states)
      ensures !ok ==> names == old(names) && deps == old(deps) && states == old(states)
    {
      if name !in deps {
        return false;
      }
      var needed := HasDependent(name);
      if needed {
        return false;
      }
      ForgetKeepsClosed(deps, states, name);
      Forget(name);
      return true;
    }

    method HasDependent(name: string) returns (found: bool)
      requires Valid()
      ensures found <==> exists n :: n in deps && name in deps[n]
    {
      for i := 0 to |names|
        invariant forall n | n in names[..i] :: name !in deps[n]
      {
        NotBefore(names, i);
        if name in deps[names[i]] {
          return true;
        }
      }
      assert names[..|names|] == names;
      return false;
    }

    method Forget(name: string)
      requires Valid()
      modifies this`deps, this`states, this`names
      ensures Valid() && deps == old(deps) - {name} && states == old(states) - {name}
      ensures names == Drop(old(names), name)
    {
      deps := deps - {name};
      states := states - {name};
      names := Drop(names, name);
    }

    /** The dependents of each service, and how many dependencies each service declares. */
    method BuildGraph() returns (graph: map<string, seq<string>>, indegree: map<string, int>)
      requires Valid() && Closed(deps)
      ensures Inverts(graph, deps, names) && Counts(indegree, deps, [], [])
    {
      graph := map n | n in deps :: [];
      indegree := map n | n in deps :: 0;
      for i := 0 to |names|
        invariant Inverts(graph, deps, names[..i])
        invariant Filled(indegree, deps, names[..i])
      {
        NotBefore(names, i);
        var more: map<string, int>;
        graph, more := AddEdges(names[i], graph, indegree, names[..i]);
        FillOne(indegree, more, deps, names[..i], names[i]);
        indegree := more;
      }
      assert names[..|names|] == names;
      forall n | n in deps ensures indegree[n] == Unmet(deps[n], []) {
        UnmetOfNothing(deps[n]);
      }
    }

    method AddEdges(name: string, graph0: map<string, seq<string>>, indegree0: map<string, int>, ghost before: seq<string>)
      returns (graph: map<string, seq<string>>, indegree: map<string, int>)
      requires name in deps && name !in before && Closed(deps)
      requires Inverts(graph0, deps, before) && indegree0.Keys == deps.Keys
      ensures Inverts(graph, deps, before + [name])
      ensures Raised(indegree, indegree0, name, |deps[name]|)
    {
      graph, indegree := graph0, indegree0;
      var ds := deps[name];
      for k := 0 to |ds|
        invariant Extends(graph, graph0, name, ds[..k])
        invariant Raised(indegree, indegree0, name, k)
      {
        PrefixStep(ds, k);
        assert ds[k] in ds;
        OneMoreEdge(graph, graph0, name, ds[..k], ds[k]);
        RaiseOne(indegree, indegree0, name, k);
        graph := graph[ds[k] := graph[ds[k]] + [name]];
        indegree := indegree[name := indegree[name] + 1];
      }
      assert ds[..|ds|] == ds;
      AllEdges(graph, graph0, deps, before, name);
    }

    /** The missing-dependency check: reports the first offending pair. */
    method FindMissing() returns (missing: Option<OrderError>)
      requires Valid()
      ensures missing == None <==> Closed(deps)
      ensures missing.Some? ==> missing.value.Missing? && FirstMissing(names, deps, missing.value.service, missing.value.dependency)
    {
      for i := 0 to |names|
        invariant forall n, d | n in names[..i] && d in deps[n] :: d in deps
      {
        assert names[..i + 1] == names[..i] + [names[i]];
        var ds := deps[names[i]];
        for k := 0 to |ds|
          invariant forall d | d in ds[..k] :: d in deps
        {
          assert ds[..k + 1] == ds[..k] + [ds[k]];
          if ds[k] !in deps {
            assert FirstMissing(names, deps, names[i], ds[k]);
            return Some(Missing(names[i], ds[k]));
          }
        }
        assert ds[..|ds|] == ds;
      }
      assert names[..|names|] == names;
      return None;
    }

    /** One pass over the dependents of a service just ordered. */
    method TakeOff(node: string, dependents: seq<string>, indegree0: map<string, int>, ready0: seq<string>, ghost order: seq<string>)
      returns (indegree: map<string, int>, ready: seq<string>)
      requires Counts(indegree0, deps, order, dependents) && ReadyList(ready0, indegree0, order)
      requires forall n | n in dependents :: n in deps && n !in order
      ensures Counts(indegree, deps, order, []) && ReadyList(ready, indegree, order)
    {
      indegree, ready := indegree0, ready0;
      assert dependents[0..] == dependents;
      for i := 0 to |dependents|
        invariant Counts(indegree, deps, order, dependents[i..]) && ReadyList(ready, indegree, order)
      {
        var neighbor := dependents[i];
        assert dependents[i..] == [neighbor] + dependents[i + 1..];
        indegree := indegree[neighbor := indegree[neighbor] - 1];
        if indegree[neighbor] == 0 {
          ready := ready + [neighbor];
        }
      }
    }

    /**
     `_get_startup_order`: a missing dependency is an error, a cycle is an error, and otherwise the
     result is the least of all orders in which every service follows its dependencies.
     */
    method GetStartupOrder() returns (r: Result<seq<string>, OrderError>)
      requires Valid()
      ensures r.Err? && r.error.Missing? <==> !Closed(deps)
      ensures r.Err? && r.error.Missing? ==> FirstMissing(names, deps, r.error.service, r.error.dependency)
      ensures r == Err(Circular) <==> Closed(deps) && Cyclic(deps)
      ensures r.Ok? ==> IsOrder(deps, r.value)
      ensures r.Ok? ==> forall p | IsOrder(deps, p) :: ListLeq(r.value, p)
    {
      var missing := FindMissing();
      if missing.Some? {
        return Err(missing.value);
      }
      var graph, indegree := BuildGraph();
      var zero := ZeroIndegree(indegree);
      var ready, order := Sort(zero), [];
      SortedReady(zero, indegree, []);
      while ready != []
        invariant Round(deps, order, indegree, ready) && Ascending(ready)
        decreases |names| - |order|
      {
        indegree, ready, order := NextRound(graph, indegree, ready, order);
      }
      Finished(deps, names, order, indegree);
      if |order| < |names| {
        return Err(Circular);
      }
      OrderMeansAcyclic(deps, order);
      LeastOrder(deps, order);
      return Ok(order);
    }

    /** The services without dependencies, in registration order. */
    method ZeroIndegree(indegree: map<string, int>) returns (zero: seq<string>)
      requires Valid() && indegree.Keys == deps.Keys
      ensures ReadyList(zero, indegree, [])
    {
      zero := [];
      for i := 0 to |names|
        invariant Distinct(zero) && forall n :: n in zero <==> n in names[..i] && indegree[n] == 0
      {
        NotBefore(names, i);
        if indegree[names[i]] == 0 {
          zero := zero + [names[i]];
        }
      }
      assert names[..|names|] == names;
    }

    /** One round of the main loop. */
    method NextRound(graph: map<string, seq<string>>, indegree0: map<string, int>, ready0: seq<string>, order0: seq<string>)
      returns (indegree: map<string, int>, ready: seq<string>, order: seq<string>)
      requires Valid() && Inverts(graph, deps, names)
      requires Round(deps, order0, indegree0, ready0) && Ascending(ready0) && ready0 != []
      ensures Round(deps, order, indegree, ready) && Ascending(ready)
      ensures order == order0 + [ready0[0]] && |order| <= |names|
    {
      var node := ready0[0];
      OrderGrows(deps, order0, indegree0, ready0);
      order := order0 + [node];
      assert node in ready0;
      ReadyMeansMet(deps, order0, indegree0, ready0, node);
      SweepPending(deps, names, order0, graph, indegree0, node);
      ReadyRest(indegree0, order0, ready0);
      forall n | n in graph[node] ensures n in deps && n !in order {
        DependentsComeLater(deps, names, order0, graph, node, n);
      }
      indegree, ready := TakeOff(node, graph[node], indegree0, ready0[1..], order);
      SortedReady(ready, indegree, order);
      ready := Sort(ready);
      OrderFits(order);
    }

    lemma OrderFits(order: seq<string>)
      requires Valid() && Respects(deps, order) && Distinct(order)
      ensures |order| <= |names|
    {
      FitsExactly(names, deps.Keys);
      forall y | y in order ensures y in deps.Keys {
        var k :| 0 <= k < |order| && order[k] == y;
      }
      DistinctFits(order, deps.Keys);
    }

    // ------------------------------------------------------------ lifecycle

    /**
     `initialize`, with `hook(n)` telling whether the service's hook returns. `calls` records each
     hook run and the services that were ACTIVE when it ran; `order` is the startup order used.
     */
    method Initialize(hook: string -> bool)
      returns (r: Result<(), StartError>, ghost order: seq<string>, ghost calls: seq<HookCall>)
      requires Valid()
      modifies this`states, this`isInitialized
      ensures Valid()
      ensures old(isInitialized) ==> r == Ok(()) && calls == [] && states == old(states) && isInitialized
      ensures !old(isInitialized) && (!Closed(deps) || Cyclic(deps)) ==>
                r == Err(BadOrder) && calls == [] && states == old(states) && !isInitialized
      ensures !old(isInitialized) && Closed(deps) && !Cyclic(deps) ==>
                && IsOrder(deps, order) && Started(old(states), order, hook, states, calls)
                && isInitialized == (FirstFailure(order, hook) == None)
                && r == Outcome(FirstFailure(order, hook))
                && exists k: nat :: (StartedUpTo(old(states), states, order, hook, k)
                                     && r == (if k < |order| then Err(HookFailed(order[k])) else Ok(()))
                                     && isInitialized == (k == |order|))
    {
      order, calls := [], [];
      if isInitialized {
        return Ok(()), order, calls;
      }
      var found := GetStartupOrder();
      if found.Err? {
        return Err(BadOrder), order, calls;
      }
      OrderMeansAcyclic(deps, found.value);
      order := found.value;
      CoversAll(order);
      StartMeans(states, order, hook);
      ghost var before := states;
      r, calls := StartAll(found.value, hook);
      if r.Ok? {
        isInitialized := true;
      }
      assert StartedUpTo(before, states, order, hook, StartedCount(order, hook));
    }

    /** The loop of `initialize`. */
    method StartAll(order: seq<string>, hook: string -> bool) returns (r: Result<(), StartError>, ghost calls: seq<HookCall>)
      requires Valid() && forall n | n in order :: n in deps
      modifies this`states
      ensures Valid() && Started(old(states), order, hook, states, calls)
      ensures r == Outcome(FirstFailure(order, hook))
    {
      calls := [];
      assert order[0..] == order;
      for i := 0 to |order|
        invariant Valid()
        invariant StartStates(states, order[i..], hook) == StartStates(old(states), order, hook)
        invariant calls + StartCalls(states, order[i..], hook) == StartCalls(old(states), order, hook)
        invariant FirstFailure(order[i..], hook) == FirstFailure(order, hook)
      {
        var name := order[i];
        StartStep(states, order, i, hook);
        states := states[name := Initializing];
        ghost var call := HookCall(name, ActiveSet(states));
        if !hook(name) {
          states := states[name := Failed];
          calls := calls + [call];
          return Err(HookFailed(name)), calls;
        }
        states := states[name := Active];
        Regroup(calls, call, StartCalls(states, order[i + 1..], hook));
        calls := calls + [call];
      }
      return Ok(()), calls;
    }

    /** `shutdown`: reverse startup order, or reverse registration order when there is none. */
    method Shutdown(hook: string -> bool) returns (ghost order: seq<string>, ghost calls: seq<HookCall>)
      requires Valid()
      modifies this`states, this`isInitialized
      ensures Valid() && !isInitialized
      ensures states == StopStates(old(states), hook) && StoppedWhereReturned(old(states), states, hook)
      ensures order == names || IsOrder(deps, order)
      ensures Closed(deps) && !Cyclic(deps) ==> IsOrder(deps, order)
      ensures calls == StopCalls(old(states), Reversed(order), hook)
    {
      var startup := OrderOrNames();
      order := startup;
      ReversedSame(startup);
      calls := StopAll(Reversed(startup), hook);
      isInitialized := false;
    }

    /** The startup order, or the registration order when there is none. */
    method OrderOrNames() returns (order: seq<string>)
      requires Valid()
      ensures order == names || IsOrder(deps, order)
      ensures Closed(deps) && !Cyclic(deps) ==> IsOrder(deps, order)
      ensures Distinct(order) && forall n :: n in order <==> n in deps
    {
      var found := GetStartupOrder();
      order := if found.Ok? then found.value else names;
      CoversAll(order);
    }

    /** The loop of `shutdown`. */
    method StopAll(down: seq<string>, hook: string -> bool) returns (ghost calls: seq<HookCall>)
      requires Valid() && Distinct(down) && forall n :: n in down <==> n in deps
      modifies this`states
      ensures Valid() && states == StopStates(old(states), hook)
      ensures calls == StopCalls(old(states), down, hook)
    {
      calls := [];
      assert down[0..] == down;
      for i := 0 to |down|
        invariant Valid()
        invariant Stopping(old(states), states, down[i..], hook)
        invariant calls + StopCalls(states, down[i..], hook) == StopCalls(old(states), down, hook)
      {
        assert down[i] in down;
        StopStep(states, down, i, hook);
        ghost var now := states;
        StopService(down[i], hook);
        StoppedOne(old(states), now, states, down, i, hook);
        if now[down[i]] == Active {
          Regroup(calls, HookCall(down[i], ActiveSet(now)), StopCalls(states, down[i + 1..], hook));
          calls := calls + [HookCall(down[i], ActiveSet(now))];
        }
      }
    }

    method StopService(name: string, hook: string -> bool)
      requires Valid() && name in deps
      modifies this`states
      ensures Valid() && states == StopOne(old(states), name, hook)
    {
      if states[name] == Active {
        if hook(name) {
          states := states[name := Stopped];
        }
      }
    }

    /** Either order lists every service once. */
    lemma CoversAll(order: seq<string>)
      requires Valid()
      ensures IsOrder(deps, order) || order == names ==> Distinct(order) && forall n :: n in order <==> n in deps
    {
      if IsOrder(deps, order) {
        forall y | y in order ensures y in deps {
          var k :| 0 <= k < |order| && order[k] == y;
        }
      }
    }
  }
}
