/** Starting services in a startup order and stopping them in reverse, and what that guarantees. */
module Lifecycle {
  import opened Prelude
  import opened Graphs
  import opened StartupOrder

  datatype ServiceState = Uninitialized | Initializing | Active | Failed | Stopped

  type States = map<string, ServiceState>

  datatype StartError = BadOrder | HookFailed(service: string)

  /** A hook run: whose hook, and which services were ACTIVE at that moment. */
  datatype HookCall = HookCall(service: string, active: set<string>)

  function ActiveSet(states: States): set<string> {
    set n | n in states && states[n] == Active
  }

  // ---------------------------------------------------------------- starting

  /** The first service of `order` whose hook raises. */
  function FirstFailure(order: seq<string>, hook: string -> bool): Option<string> {
    if order == [] then None else if !hook(order[0]) then Some(order[0]) else FirstFailure(order[1..], hook)
  }

  function Outcome(failure: Option<string>): Result<(), StartError> {
    match failure case None => Ok(()) case Some(n) => Err(HookFailed(n))
  }

  /** The states after starting `order`, stopping at the first hook that raises. */
  function StartStates(states: States, order: seq<string>, hook: string -> bool): (r: States)
    ensures forall n | n in states :: n in r
    decreases |order|
  {
    if order == [] then states
    else if hook(order[0]) then StartStates(states[order[0] := Active], order[1..], hook)
    else states[order[0] := Failed]
  }

  function StartCalls(states: States, order: seq<string>, hook: string -> bool): seq<HookCall>
    decreases |order|
  {
    if order == [] then []
    else
      [HookCall(order[0], ActiveSet(states[order[0] := Initializing]))]
      + if hook(order[0]) then StartCalls(states[order[0] := Active], order[1..], hook) else []
  }

  /** One service's turn in `initialize`, with its intermediate INITIALIZING state. */
  lemma StartStep(states: States, order: seq<string>, k: nat, hook: string -> bool)
    requires k < |order|
    ensures var now, rest := states[order[k] := Initializing], order[k + 1..];
      && StartStates(states, order[k..], hook)
         == (if hook(order[k]) then StartStates(now[order[k] := Active], rest, hook) else now[order[k] := Failed])
      && StartCalls(states, order[k..], hook)
         == [HookCall(order[k], ActiveSet(now))]
            + (if hook(order[k]) then StartCalls(now[order[k] := Active], rest, hook) else [])
      && FirstFailure(order[k..], hook) == (if hook(order[k]) then FirstFailure(rest, hook) else Some(order[k]))
  {
    var now := states[order[k] := Initializing];
    assert order[k..][0] == order[k] && order[k..][1..] == order[k + 1..];
    assert now[order[k] := Active] == states[order[k] := Active];
    assert now[order[k] := Failed] == states[order[k] := Failed];
  }

  ghost predicate Started(before: States, order: seq<string>, hook: string -> bool, after: States, calls: seq<HookCall>) {
    after == StartStates(before, order, hook) && calls == StartCalls(before, order, hook)
  }

  /** Every dependency of an ACTIVE service is ACTIVE. */
  ghost predicate ActiveClosed(deps: Deps, states: States) {
    forall n, d | n in states && states[n] == Active && n in deps && d in deps[n] :: d in states && states[d] == Active
  }

  /** A run that has started exactly the services of `done` and nothing else is active. */
  ghost predicate Progress(deps: Deps, done: seq<string>, states: States) {
    && states.Keys == deps.Keys
    && forall n | n in deps :: states[n] == Active <==> n in done
  }

  /**
   From nothing ACTIVE: each hook runs while all its service's dependencies are ACTIVE, the ACTIVE
   services stay closed under dependencies, and without a raising hook all end ACTIVE.
   */
  lemma {:induction false} StartSafe(deps: Deps, done: seq<string>, rest: seq<string>, states: States, hook: string -> bool)
    requires Respects(deps, done + rest) && Distinct(done + rest) && Progress(deps, done, states)
    ensures forall c | c in StartCalls(states, rest, hook) :: c.service in deps && forall d | d in deps[c.service] :: d in c.active
    ensures ActiveClosed(deps, StartStates(states, rest, hook))
    ensures FirstFailure(rest, hook) == None ==>
              forall n | n in done + rest :: n in states && StartStates(states, rest, hook)[n] == Active
    decreases |rest|
  {
    var all := done + rest;
    forall k | 0 <= k < |done| ensures done[k] in deps && MetBy(deps[done[k]], done[..k]) {
      assert all[k] == done[k] && all[..k] == done[..k];
    }
    if rest == [] {
      DoneIsClosed(deps, done, states);
      assert done + rest == done;
    } else {
      var name := rest[0];
      assert all[|done|] == name && all[..|done|] == done;
      assert name !in done;
      DoneIsClosed(deps, done, states);
      if hook(name) {
        assert (done + [name]) + rest[1..] == all;
        StartSafe(deps, done + [name], rest[1..], states[name := Active], hook);
      }
    }
  }

  lemma DoneIsClosed(deps: Deps, done: seq<string>, states: States)
    requires Respects(deps, done) && Progress(deps, done, states)
    ensures ActiveClosed(deps, states)
  {
    forall n, d | n in states && states[n] == Active && d in deps[n] ensures d in states && states[d] == Active {
      var k :| 0 <= k < |done| && done[k] == n;
      assert d in done[..k];
      assert d in done;
      var i :| 0 <= i < |done| && done[i] == d;
    }
  }

  /** From nothing ACTIVE: the guarantee of a first start. */
  lemma FirstStart(deps: Deps, order: seq<string>, states: States, hook: string -> bool)
    requires IsOrder(deps, order) && states.Keys == deps.Keys && ActiveSet(states) == {}
    ensures forall c | c in StartCalls(states, order, hook) :: c.service in deps && forall d | d in deps[c.service] :: d in c.active
    ensures ActiveClosed(deps, StartStates(states, order, hook))
    ensures FirstFailure(order, hook) == None ==>
              forall n | n in deps :: n in states && StartStates(states, order, hook)[n] == Active
  {
    assert [] + order == order;
    forall n | n in deps ensures states[n] != Active {
      assert n !in ActiveSet(states);
    }
    StartSafe(deps, [], order, states, hook);
  }

  /** How many services start before the first raising hook. */
  function StartedCount(order: seq<string>, hook: string -> bool): (k: nat)
    ensures k <= |order| && (k < |order| ==> !hook(order[k])) && forall i | 0 <= i < k :: hook(order[i])
  {
    if order == [] || !hook(order[0]) then 0 else 1 + StartedCount(order[1..], hook)
  }

  /** Services before the raising hook end ACTIVE, its own service FAILED, the rest are not touched. */
  lemma {:induction false} StartPointwise(states: States, order: seq<string>, hook: string -> bool, n: string)
    requires Distinct(order) && n in states
    ensures var k := StartedCount(order, hook);
      && StartStates(states, order, hook)[n]
         == (if n in order[..k] then Active else if k < |order| && n == order[k] then Failed else states[n])
      && FirstFailure(order, hook) == (if k < |order| then Some(order[k]) else None)
    decreases |order|
  {
    if order != [] && hook(order[0]) {
      StartPointwise(states[order[0] := Active], order[1..], hook, n);
      var k := StartedCount(order[1..], hook);
      assert order[..k + 1] == [order[0]] + order[1..][..k];
      assert order[0] !in order[1..];
    }
  }

  /** The first `k` services of `order` were started, the next one's hook raised, and no other was touched. */
  ghost predicate StartedUpTo(before: States, after: States, order: seq<string>, hook: string -> bool, k: nat) {
    && k <= |order| && after.Keys == before.Keys
    && (forall i | 0 <= i < k :: hook(order[i]) && order[i] in after && after[order[i]] == Active)
    && (k < |order| ==> !hook(order[k]) && order[k] in after && after[order[k]] == Failed)
    && forall n | n in before && n !in order[..k] && (k < |order| ==> n != order[k]) :: after[n] == before[n]
  }

  lemma {:induction false} StartKeys(states: States, order: seq<string>, hook: string -> bool)
    requires forall n | n in order :: n in states
    ensures StartStates(states, order, hook).Keys == states.Keys
    decreases |order|
  {
    if order != [] && hook(order[0]) {
      StartKeys(states[order[0] := Active], order[1..], hook);
    }
  }

  /** The hooks run are those of the services started and of the one that failed, in the order given. */
  lemma {:induction false} CallsMean(states: States, order: seq<string>, hook: string -> bool)
    ensures var calls, k := StartCalls(states, order, hook), StartedCount(order, hook);
      && |calls| == (if k < |order| then k + 1 else k)
      && forall i | 0 <= i < |calls| :: calls[i].service == order[i]
    decreases |order|
  {
    if order != [] && hook(order[0]) {
      CallsMean(states[order[0] := Active], order[1..], hook);
    }
  }

  /** What a start does to every service, and which one it says failed. */
  lemma StartMeans(states: States, order: seq<string>, hook: string -> bool)
    requires Distinct(order) && forall n | n in order :: n in states
    ensures var k := StartedCount(order, hook);
      && StartedUpTo(states, StartStates(states, order, hook), order, hook, k)
      && FirstFailure(order, hook) == (if k < |order| then Some(order[k]) else None)
  {
    var k := StartedCount(order, hook);
    StartKeys(states, order, hook);
    forall n | n in states ensures
      StartStates(states, order, hook)[n] == if n in order[..k] then Active else if k < |order| && n == order[k] then Failed else states[n]
    {
      StartPointwise(states, order, hook, n);
    }
    forall i | 0 <= i < |order| ensures order[i] in states && (i < k ==> order[i] in order[..k]) && (i >= k ==> order[i] !in order[..k]) {
      assert order[i] in order;
    }
    if order == [] {
      assert FirstFailure(order, hook) == None;
    } else {
      StartPointwise(states, order, hook, order[0]);
    }
  }

  /**
   A start over services that are already ACTIVE keeps ACTIVE closed under dependencies exactly when
   no ACTIVE service declares the service whose hook raises as a dependency.
   */
  lemma RestartClosedIff(deps: Deps, order: seq<string>, states: States, hook: string -> bool, failed: string)
    requires IsOrder(deps, order) && Closed(deps) && states.Keys == deps.Keys && ActiveClosed(deps, states)
    requires FirstFailure(order, hook) == Some(failed)
    ensures ActiveClosed(deps, StartStates(states, order, hook)) <==>
              forall n | n in deps && states[n] == Active :: failed !in deps[n]
  {
    var after := StartStates(states, order, hook);
    var k := StartedCount(order, hook);
    assert states.Keys == deps.Keys && |order| >= 0;
    forall n | n in states
      ensures after[n] == if n in order[..k] then Active else if k < |order| && n == order[k] then Failed else states[n]
      ensures k < |order| && order[k] == failed
    {
      StartPointwise(states, order, hook, n);
    }
    FailureIsInOrder(order, hook);
    assert failed in deps && k < |order| && order[k] == failed by {
      var i :| 0 <= i < |order| && order[i] == failed;
    }
    forall n | n in deps && states[n] == Active && failed in deps[n] ensures !ActiveClosed(deps, after) {
      LaterThanDependency(deps, order, k, n);
      assert after[n] == Active && after[failed] == Failed;
    }
    if forall n | n in deps && states[n] == Active :: failed !in deps[n] {
      forall n, d | n in after && after[n] == Active && n in deps && d in deps[n] ensures d in after && after[d] == Active {
        assert n in order && d in states;
        if n in order[..k] {
          var i :| 0 <= i < k && order[i] == n;
          assert MetBy(deps[n], order[..i]) && d in order[..i];
          assert d in order[..k];
        }
      }
    }
  }

  lemma StartThree(states: States, a: string, b: string, c: string, hook: string -> bool)
    ensures StartStates(states, [a, b, c], hook) ==
      if !hook(a) then states[a := Failed]
      else if !hook(b) then states[a := Active][b := Failed]
      else states[a := Active][b := Active][c := if hook(c) then Active else Failed]
  {
    assert [a, b, c][1..] == [b, c] && [b, c][1..] == [c] && [c][1..] == [];
    assert StartStates(states[a := Active], [b, c], hook)
        == if hook(b) then StartStates(states[a := Active][b := Active], [c], hook) else states[a := Active][b := Failed];
    assert forall s: States :: hook(c) ==> StartStates(s, [c], hook) == StartStates(s[c := Active], [], hook);
  }

  /**
   The web service fails the first start after the cache and the feed on top of it came up; the
   second start fails at the cache and leaves the feed ACTIVE above it.
   */
  lemma SecondStartLeavesGap(first: string -> bool, second: string -> bool)
    requires first("cache") && first("feed") && !first("web") && !second("cache")
    ensures var deps: Deps := map["cache" := [], "feed" := ["cache"], "web" := []];
      var order := ["cache", "feed", "web"];
      var before: States := map["cache" := Uninitialized, "feed" := Uninitialized, "web" := Uninitialized];
      var between := StartStates(before, order, first);
      var after := StartStates(between, order, second);
      && IsOrder(deps, order) && ActiveClosed(deps, between) && !ActiveClosed(deps, after)
      && after == map["cache" := Failed, "feed" := Active, "web" := Failed]
  {
    var deps: Deps := map["cache" := [], "feed" := ["cache"], "web" := []];
    var before: States := map["cache" := Uninitialized, "feed" := Uninitialized, "web" := Uninitialized];
    StartThree(before, "cache", "feed", "web", first);
    var between := StartStates(before, ["cache", "feed", "web"], first);
    assert between == map["cache" := Active, "feed" := Active, "web" := Failed];
    StartThree(between, "cache", "feed", "web", second);
    ThreeInOrder(deps);
    assert "cache" in deps["feed"];
  }

  lemma ThreeInOrder(deps: Deps)
    requires deps == map["cache" := [], "feed" := ["cache"], "web" := []]
    ensures IsOrder(deps, ["cache", "feed", "web"])
  {
    var p := ["cache", "feed", "web"];
    assert p[..1] == ["cache"] && "cache" != "feed" && "cache" != "web" && "feed" != "web";
  }

  lemma {:induction false} FailureIsInOrder(order: seq<string>, hook: string -> bool)
    ensures FirstFailure(order, hook).Some? ==> FirstFailure(order, hook).value in order
  {
    if order != [] && hook(order[0]) {
      FailureIsInOrder(order[1..], hook);
    }
  }

  /** A service comes after each of its dependencies, so not among the first `k` if one is at `k`. */
  lemma LaterThanDependency(deps: Deps, order: seq<string>, k: nat, n: string)
    requires IsOrder(deps, order) && k < |order| && n in deps && order[k] in deps[n]
    ensures n !in order[..k] && n != order[k]
  {
    assert n in order;
    var i :| 0 <= i < |order| && order[i] == n;
    assert order[k] in order[..i];
    assert i > k;
    assert forall j | 0 <= j <= k :: order[j] != order[i];
  }

  // ---------------------------------------------------------------- stopping

  function Reversed(s: seq<string>): seq<string> {
    if s == [] then [] else Reversed(s[1..]) + [s[0]]
  }

  lemma {:induction false} ReversedAt(s: seq<string>, k: nat)
    requires k < |s|
    ensures |Reversed(s)| == |s| && Reversed(s)[k] == s[|s| - 1 - k]
  {
    if |s| > 1 {
      ReversedAt(s[1..], if k < |s| - 1 then k else 0);
    }
  }

  lemma ReversedSame(s: seq<string>)
    ensures |Reversed(s)| == |s|
    ensures forall x :: x in Reversed(s) <==> x in s
    ensures Distinct(s) ==> Distinct(Reversed(s))
  {
    if s != [] {
      forall k: nat | k < |s| ensures |Reversed(s)| == |s| && Reversed(s)[k] == s[|s| - 1 - k] {
        ReversedAt(s, k);
      }
      ReversedAt(s, 0);
      forall x | x in s ensures x in Reversed(s) {
        var i :| 0 <= i < |s| && s[i] == x;
        assert Reversed(s)[|s| - 1 - i] == x;
      }
    }
  }

  /** What stopping does to one service: only an ACTIVE one whose hook returns becomes STOPPED. */
  function StopState(state: ServiceState, returns_: bool): ServiceState {
    if state == Active && returns_ then Stopped else state
  }

  function StopStates(states: States, hook: string -> bool): States {
    map n | n in states :: StopState(states[n], hook(n))
  }

  function StopOne(states: States, name: string, hook: string -> bool): States
    requires name in states
  {
    states[name := StopState(states[name], hook(name))]
  }

  function StopCalls(states: States, down: seq<string>, hook: string -> bool): seq<HookCall>
    decreases |down|
  {
    if down == [] then []
    else if down[0] !in states then StopCalls(states, down[1..], hook)
    else
      (if states[down[0]] == Active then [HookCall(down[0], ActiveSet(states))] else [])
      + StopCalls(StopOne(states, down[0], hook), down[1..], hook)
  }

  /** What a shutdown does to every service: STOPPED exactly if it was ACTIVE and its hook returned. */
  ghost predicate StoppedWhereReturned(before: States, after: States, hook: string -> bool) {
    && after.Keys == before.Keys
    && (forall n | n in before && before[n] == Active && hook(n) :: after[n] == Stopped)
    && (forall n | n in before && !(before[n] == Active && hook(n)) :: after[n] == before[n])
  }

  lemma StopMeans(states: States, hook: string -> bool)
    ensures StoppedWhereReturned(states, StopStates(states, hook), hook)
  {
  }

  function ServicesOf(calls: seq<HookCall>): seq<string> {
    seq(|calls|, i requires 0 <= i < |calls| => calls[i].service)
  }

  /** The hooks run are those of the ACTIVE services, each once, in the order given. */
  lemma {:induction false} StopCallsMean(states: States, down: seq<string>, hook: string -> bool)
    requires Distinct(down)
    ensures var called := ServicesOf(StopCalls(states, down, hook));
      && Subsequence(called, down)
      && forall n :: n in called <==> n in down && n in states && states[n] == Active
    decreases |down|
  {
    if down != [] {
      assert down == [down[0]] + down[1..];
      assert forall i | 1 <= i < |down| :: down[0] != down[i];
      assert down[0] !in down[1..];
      if down[0] in states {
        var after := StopOne(states, down[0], hook);
        StopCallsMean(after, down[1..], hook);
        var later := StopCalls(after, down[1..], hook);
        assert ServicesOf(StopCalls(states, down, hook))
            == (if states[down[0]] == Active then [down[0]] else []) + ServicesOf(later);
        HeadNotFirst(ServicesOf(later), down);
        SubsequenceOneMore(ServicesOf(later), down, states[down[0]] == Active);
      } else {
        StopCallsMean(states, down[1..], hook);
        HeadNotFirst(ServicesOf(StopCalls(states, down[1..], hook)), down);
        SubsequenceOneMore(ServicesOf(StopCalls(states, down[1..], hook)), down, false);
      }
    }
  }

  lemma HeadNotFirst(part: seq<string>, whole: seq<string>)
    requires whole != [] && whole[0] !in part
    ensures part == [] || part[0] != whole[0]
  {
    assert part != [] ==> part[0] in part;
  }

  /** One service's turn in `shutdown`. */
  lemma StopStep(states: States, down: seq<string>, k: nat, hook: string -> bool)
    requires k < |down| && down[k] in states
    ensures var rest := StopCalls(StopOne(states, down[k], hook), down[k + 1..], hook);
      StopCalls(states, down[k..], hook)
      == if states[down[k]] == Active then [HookCall(down[k], ActiveSet(states))] + rest else rest
  {
    assert down[k..][0] == down[k] && down[k..][1..] == down[k + 1..];
  }

  /** The services of `rest` are as before; the others have had their turn. */
  ghost predicate Stopping(before: States, states: States, rest: seq<string>, hook: string -> bool) {
    && states.Keys == before.Keys
    && forall n | n in states :: states[n] == if n in rest then before[n] else StopState(before[n], hook(n))
  }

  lemma StoppedOne(before: States, states: States, after: States, down: seq<string>, k: nat, hook: string -> bool)
    requires k < |down| && Distinct(down) && Stopping(before, states, down[k..], hook) && down[k] in states
    requires after == StopOne(states, down[k], hook)
    ensures Stopping(before, after, down[k + 1..], hook)
  {
    assert down[k..] == [down[k]] + down[k + 1..];
    NotLater(down, k);
  }

  lemma NotLater(s: seq<string>, i: nat)
    requires i < |s| && Distinct(s)
    ensures s[i] !in s[i + 1..]
  {
  }

  /** Nothing still ACTIVE depends on the service. */
  ghost predicate NoActiveDependent(deps: Deps, call: HookCall) {
    forall m | m in call.active && m in deps :: call.service !in deps[m]
  }

  /** When no hook raises, each service is shut down only after all its dependents left ACTIVE. */
  lemma {:induction false} StopSafe(deps: Deps, order: seq<string>, k: nat, states: States, hook: string -> bool)
    requires IsOrder(deps, order) && k <= |order| && states.Keys == deps.Keys
    requires forall n | n in order :: hook(n)
    requires forall i | k <= i < |order| :: states[order[i]] != Active
    ensures forall c | c in StopCalls(states, Reversed(order[..k]), hook) :: NoActiveDependent(deps, c)
    decreases k
  {
    if k > 0 {
      var name := order[k - 1];
      var down := Reversed(order[..k]);
      ReversedSnoc(order[..k - 1], name);
      assert order[..k] == order[..k - 1] + [name];
      assert down[0] == name && down[1..] == Reversed(order[..k - 1]);
      assert name in order && hook(name);
      var after := StopOne(states, name, hook);
      forall i | k - 1 <= i < |order| ensures after[order[i]] != Active {
      }
      StopSafe(deps, order, k - 1, after, hook);
      NothingAfterIsActive(deps, order, k, states);
    }
  }

  lemma {:induction false} ReversedSnoc(s: seq<string>, x: string)
    ensures Reversed(s + [x]) == [x] + Reversed(s)
  {
    if s == [] {
      assert s + [x] == [x] && [x][1..] == [];
    } else {
      assert (s + [x])[1..] == s[1..] + [x];
      ReversedSnoc(s[1..], x);
    }
  }

  lemma NothingAfterIsActive(deps: Deps, order: seq<string>, k: nat, states: States)
    requires IsOrder(deps, order) && 0 < k <= |order| && states.Keys == deps.Keys
    requires forall i | k <= i < |order| :: states[order[i]] != Active
    ensures NoActiveDependent(deps, HookCall(order[k - 1], ActiveSet(states)))
  {
    forall m | m in ActiveSet(states) && m in deps ensures order[k - 1] !in deps[m] {
      assert m in order;
      var i :| 0 <= i < |order| && order[i] == m;
      assert i < k;
      assert MetBy(deps[m], order[..i]);
      assert forall j | 0 <= j < i :: order[j] != order[k - 1];
    }
  }
}
