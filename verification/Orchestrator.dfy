/** The runtime orchestrator: `start` and `stop` over the service manager. */
module Orchestrator {
  import opened Prelude
  import opened Graphs
  import opened StartupOrder
  import opened Lifecycle
  import opened ServiceManager

  datatype RuntimeState = NotStarted | InitializingRuntime | RunningRuntime | ShuttingDown | StoppedRuntime | FailedRuntime

  datatype OrchestratorError = Busy | StartFailed(cause: StartError) | StopFailed

  /** Some service other than one named "services" is ACTIVE. */
  ghost predicate LeftActive(states: States) {
    exists n :: n in states && n != "services" && states[n] == Active
  }

  class RuntimeOrchestrator {
    const manager: RuntimeServiceManager
    var state: RuntimeState

    constructor (manager: RuntimeServiceManager)
      ensures this.manager == manager && state == NotStarted
    {
      this.manager := manager;
      state := NotStarted;
    }

    /**
     `start`. From a manager that is not initialised and has nothing ACTIVE, every hook runs while
     its service's dependencies are ACTIVE, and the runtime ends RUNNING with all services ACTIVE or
     FAILED with the ACTIVE ones closed under dependencies.
     */
    method Start(hook: string -> bool) returns (r: Result<(), OrchestratorError>, ghost calls: seq<HookCall>)
      requires manager.Valid()
      modifies this`state, manager`states, manager`isInitialized
      ensures manager.Valid()
      ensures old(state) == RunningRuntime ==> r == Ok(()) && state == RunningRuntime && manager.states == old(manager.states)
      ensures old(state) == InitializingRuntime ==> r == Err(Busy) && state == old(state) && manager.states == old(manager.states)
      ensures !(old(state) in {RunningRuntime, InitializingRuntime}) ==>
                state == (if r.Ok? then RunningRuntime else FailedRuntime) && (r.Err? ==> r.error.StartFailed?)
      ensures !(old(state) in {RunningRuntime, InitializingRuntime}) && old(manager.isInitialized) ==>
                r.Ok? && manager.states == old(manager.states)
      ensures !(old(state) in {RunningRuntime, InitializingRuntime}) && !old(manager.isInitialized)
              && ActiveSet(old(manager.states)) == {} ==>
                && (forall c | c in calls :: c.service in manager.deps && forall d | d in manager.deps[c.service] :: d in c.active)
                && ActiveClosed(manager.deps, manager.states)
                && (state == RunningRuntime ==> forall n | n in manager.states :: manager.states[n] == Active)
                && (state == RunningRuntime ==> Closed(manager.deps) && !Cyclic(manager.deps))
    {
      calls := [];
      if state == RunningRuntime {
        return Ok(()), calls;
      }
      if state == InitializingRuntime {
        return Err(Busy), calls;
      }
      state := InitializingRuntime;
      ghost var before := manager.states;
      var started, order, hooks := manager.Initialize(hook);
      calls := hooks;
      if ActiveSet(before) == {} && !old(manager.isInitialized) && Closed(manager.deps) && !Cyclic(manager.deps) {
        FirstStart(manager.deps, order, before, hook);
      }
      assert ActiveSet(before) == {} ==> forall n | n in before :: before[n] != Active by {
        assert forall n | n in before && before[n] == Active :: n in ActiveSet(before);
      }
      if started.Err? {
        state := FailedRuntime;
        return Err(StartFailed(started.error)), calls;
      }
      state := RunningRuntime;
      return Ok(()), calls;
    }

    /**
     `stop`. Every ACTIVE service whose hook returns is STOPPED; the runtime reaches STOPPED exactly
     when no service but one named "services" stays ACTIVE. When no hook raises and the dependencies
     can be ordered, each service is shut down after everything that depends on it.
     */
    method Stop(hook: string -> bool) returns (r: Result<(), OrchestratorError>, ghost calls: seq<HookCall>)
      requires manager.Valid()
      modifies this`state, manager`states, manager`isInitialized
      ensures manager.Valid()
      ensures old(state) in {StoppedRuntime, NotStarted} ==> r == Ok(()) && state == old(state) && manager.states == old(manager.states)
      ensures !(old(state) in {StoppedRuntime, NotStarted}) ==>
                && StoppedWhereReturned(old(manager.states), manager.states, hook)
                && state == (if LeftActive(manager.states) then FailedRuntime else StoppedRuntime)
                && r == (if LeftActive(manager.states) then Err(StopFailed) else Ok(()))
      ensures Closed(manager.deps) && !Cyclic(manager.deps) && (forall n | n in manager.deps :: hook(n)) ==>
                forall c | c in calls :: NoActiveDependent(manager.deps, c)
    {
      calls := [];
      if state == StoppedRuntime || state == NotStarted {
        return Ok(()), calls;
      }
      state := ShuttingDown;
      ghost var before := manager.states;
      ghost var order;
      order, calls := manager.Shutdown(hook);
      if Closed(manager.deps) && !Cyclic(manager.deps) && forall n | n in manager.deps :: hook(n) {
        assert order[..|order|] == order;
        assert forall n | n in order :: n in manager.deps by {
          assert forall k | 0 <= k < |order| :: order[k] in manager.deps;
        }
        StopSafe(manager.deps, order, |order|, before, hook);
      }
      var left := FindLeftActive();
      if left {
        state := FailedRuntime;
        return Err(StopFailed), calls;
      }
      state := StoppedRuntime;
      return Ok(()), calls;
    }

    /** The check of `stop` over the services' status reports. */
    method FindLeftActive() returns (left: bool)
      requires manager.Valid()
      ensures left <==> LeftActive(manager.states)
    {
      var names := manager.names;
      for i := 0 to |names|
        invariant forall n | n in names[..i] && n != "services" :: manager.states[n] != Active
      {
        PrefixStep(names, i);
        if names[i] != "services" && manager.states[names[i]] == Active {
          return true;
        }
      }
      assert names[..|names|] == names;
      return false;
    }
  }
}
