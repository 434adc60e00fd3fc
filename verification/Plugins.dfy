/** The plugin registry: dependency validation, loading and starting with dependencies first. */
module Plugins {
  import opened Prelude
  import opened Graphs

  datatype PluginState = Registered | Loaded | Active | Stopped | Failed

  /** `compatible` is the outcome of checking the plugin's version requirement against the core. */
  datatype Plugin = Plugin(dependencies: seq<string>, compatible: bool)

  datatype DependencyError = CircularDependency(name: string) | NotRegistered(name: string) | Incompatible(name: string)

  datatype PluginError =
    NotFound(name: string) | LoadFailed(name: string) | UnloadFailed(name: string) | StartFailed(name: string) | StopFailed(name: string)

  datatype HookKind = InitializeHook | LoadHook | StartHook
  datatype Hook = Hook(plugin: string, kind: HookKind)

  type Catalog = map<string, Plugin>
  type States = map<string, PluginState>

  /** Dependencies of the compatible plugins: an incompatible plugin is as good as missing. */
  ghost function Usable(plugins: Catalog): Graph<string> {
    map n | n in plugins && plugins[n].compatible :: set d | d in plugins[n].dependencies
  }

  ghost function Declared(plugins: Catalog): Graph<string> {
    map n | n in plugins :: set d | d in plugins[n].dependencies
  }

  /** No cycle can be reached from `name`, whatever is missing or incompatible. */
  ghost predicate AcyclicFrom(plugins: Catalog, name: string) {
    forall y | Reaches(Declared(plugins), name, y) :: !OnCycle(Declared(plugins), y)
  }

  // ---------------------------------------------------------------- invariants of the states

  predicate PastRegistered(s: PluginState) {
    s == Loaded || s == Stopped || s == Active
  }

  /** No LOADED, STOPPED or ACTIVE plugin has a dependency that is still REGISTERED. */
  ghost predicate LoadClosed(plugins: Catalog, states: States) {
    forall n, d | n in plugins && n in states && PastRegistered(states[n]) && d in plugins[n].dependencies && d in states ::
      states[d] != Registered
  }

  /** Every dependency of an ACTIVE plugin is ACTIVE. */
  ghost predicate ActiveClosed(plugins: Catalog, states: States) {
    forall n, d | n in plugins && n in states && states[n] == Active && d in plugins[n].dependencies ::
      d in states && states[d] == Active
  }

  // ---------------------------------------------------------------- what one load does

  /** Only REGISTERED plugins changed, to LOADED or FAILED. */
  ghost predicate OnlyLoads(before: States, after: States) {
    && after.Keys == before.Keys
    && forall n | n in before :: after[n] == before[n] || (before[n] == Registered && after[n] in {Loaded, Failed})
  }

  ghost predicate NoneFailed(before: States, after: States) {
    forall n | n in before && n in after && before[n] == Registered :: after[n] != Failed
  }

  /** `ran` are the hooks run meanwhile: of plugins that were REGISTERED and no longer are, each once. */
  ghost predicate RanOnce(before: States, after: States, ran: seq<Hook>) {
    && Distinct(ran)
    && forall h | h in ran :: h.plugin in before && h.plugin in after && before[h.plugin] == Registered && after[h.plugin] != Registered
  }

  /** A plugin that became LOADED ran both its hooks. */
  ghost predicate LoadedRan(before: States, after: States, ran: seq<Hook>) {
    forall n | n in before && n in after && before[n] == Registered && after[n] == Loaded ::
      Hook(n, InitializeHook) in ran && Hook(n, LoadHook) in ran
  }

  /** Before a plugin's hook, both hooks of each dependency that still had to be loaded ran. */
  ghost predicate DependenciesFirst(plugins: Catalog, before: States, ran: seq<Hook>) {
    forall i, d | 0 <= i < |ran| && ran[i].plugin in plugins && d in plugins[ran[i].plugin].dependencies
                  && d in before && before[d] == Registered ::
      Hook(d, InitializeHook) in ran[..i] && Hook(d, LoadHook) in ran[..i]
  }

  ghost predicate LoadEffect(plugins: Catalog, before: States, after: States, ran: seq<Hook>) {
    && OnlyLoads(before, after)
    && RanOnce(before, after, ran)
    && LoadedRan(before, after, ran)
    && DependenciesFirst(plugins, before, ran)
  }

  /** Two loads in a row, the first one without a failure, are one load. */
  lemma LoadsCompose(plugins: Catalog, s0: States, s1: States, s2: States, ran1: seq<Hook>, ran2: seq<Hook>)
    requires LoadEffect(plugins, s0, s1, ran1) && NoneFailed(s0, s1)
    requires LoadEffect(plugins, s1, s2, ran2)
    ensures LoadEffect(plugins, s0, s2, ran1 + ran2)
  {
    var ran := ran1 + ran2;
    forall i, j | 0 <= i < j < |ran| ensures ran[i] != ran[j] {
      if i < |ran1| <= j {
        assert ran[i] in ran1 && ran[j] in ran2;
      }
    }
    forall h | h in ran ensures h.plugin in s0 && h.plugin in s2 && s0[h.plugin] == Registered && s2[h.plugin] != Registered {
      assert h in ran1 || h in ran2;
    }
    assert LoadedRan(s0, s2, ran);
    forall i, d | 0 <= i < |ran| && ran[i].plugin in plugins && d in plugins[ran[i].plugin].dependencies
                  && d in s0 && s0[d] == Registered
      ensures Hook(d, InitializeHook) in ran[..i] && Hook(d, LoadHook) in ran[..i]
    {
      if i < |ran1| {
        assert ran[..i] == ran1[..i] && ran[i] == ran1[i];
      } else {
        assert ran[..i] == ran1 + ran2[..i - |ran1|] && ran[i] == ran2[i - |ran1|];
      }
    }
  }

  /** The hooks of one plugin's load, in order. */
  function OwnHooks(name: string): (r: seq<Hook>)
    ensures |r| == 2
  {
    [Hook(name, InitializeHook), Hook(name, LoadHook)]
  }

  /** The last steps of a load: the hooks run so far and the plugin's new state. */
  lemma FinishLoad(plugins: Catalog, s0: States, s1: States, ran: seq<Hook>, name: string, own: seq<Hook>, result: PluginState)
    requires LoadEffect(plugins, s0, s1, ran) && NoneFailed(s0, s1) && s0.Keys == plugins.Keys
    requires name in plugins && s1[name] == Registered && s0[name] == Registered
    requires forall d | d in plugins[name].dependencies && d in s1 :: s1[d] != Registered
    requires own <= OwnHooks(name)
    requires result == Failed || (result == Loaded && |own| == 2)
    ensures LoadEffect(plugins, s0, s1[name := result], ran + own)
  {
    var both := OwnHooks(name);
    forall i | 0 <= i < |own| ensures own[i] == both[i] && own[i].plugin == name {
    }
    if result == Loaded {
      assert own == both;
    }
    OwnHooksOnce(s0, s1, ran, name, own, result);
    OwnHooksLast(plugins, s0, s1, ran, name, own);
    assert forall h | h in ran :: h in ran + own;
    assert forall h | h in own :: h in ran + own;
  }

  lemma OwnHooksOnce(s0: States, s1: States, ran: seq<Hook>, name: string, own: seq<Hook>, result: PluginState)
    requires OnlyLoads(s0, s1) && RanOnce(s0, s1, ran) && Distinct(own) && forall h | h in own :: h.plugin == name
    requires name in s0 && s0[name] == Registered && s1[name] == Registered && result != Registered
    ensures RanOnce(s0, s1[name := result], ran + own)
  {
    var all := ran + own;
    forall h | h in all ensures h.plugin in s0 && s0[h.plugin] == Registered && s1[name := result][h.plugin] != Registered {
      assert h in ran || h in own;
    }
    forall i, j | 0 <= i < j < |all| ensures all[i] != all[j] {
      if i < |ran| <= j {
        assert all[i] in ran && all[j] in own;
      }
    }
  }

  lemma OwnHooksLast(plugins: Catalog, s0: States, s1: States, ran: seq<Hook>, name: string, own: seq<Hook>)
    requires OnlyLoads(s0, s1) && NoneFailed(s0, s1) && LoadedRan(s0, s1, ran) && DependenciesFirst(plugins, s0, ran)
    requires name in plugins && (forall h | h in own :: h.plugin == name)
    requires forall d | d in plugins[name].dependencies && d in s1 :: s1[d] != Registered
    ensures DependenciesFirst(plugins, s0, ran + own)
  {
    var all := ran + own;
    forall i, d | 0 <= i < |all| && all[i].plugin in plugins && d in plugins[all[i].plugin].dependencies
                  && d in s0 && s0[d] == Registered
      ensures Hook(d, InitializeHook) in all[..i] && Hook(d, LoadHook) in all[..i]
    {
      if i < |ran| {
        assert all[..i] == ran[..i] && all[i] == ran[i];
      } else {
        assert all[..i] == ran + own[..i - |ran|] && all[i] == own[i - |ran|];
        assert all[i] in own && s1[d] == Loaded;
      }
    }
  }

  /** Everything that changed is another plugin reachable from `name`. */
  ghost predicate ChangedBelow(plugins: Catalog, name: string, before: States, after: States) {
    forall n | n in before && n in after && after[n] != before[n] :: n != name && Reaches(Usable(plugins), name, n)
  }

  ghost predicate KeepsLoadClosed(plugins: Catalog, before: States, after: States) {
    LoadClosed(plugins, before) ==> LoadClosed(plugins, after)
  }

  /** The loads of the dependencies `done` of `name`, none of which failed. */
  ghost predicate Loading(plugins: Catalog, name: string, before: States, now: States, ran: seq<Hook>, done: seq<string>) {
    && LoadEffect(plugins, before, now, ran) && NoneFailed(before, now)
    && ChangedBelow(plugins, name, before, now)
    && KeepsLoadClosed(plugins, before, now)
    && forall d | d in done && d in now :: now[d] != Registered
  }

  /** One more dependency was loaded, or failed. */
  lemma LoadingMore(plugins: Catalog, name: string, dep: string, s0: States, s1: States, s2: States,
                    ran: seq<Hook>, more: seq<Hook>, done: seq<string>)
    requires name in Usable(plugins) && dep in Usable(plugins)[name] && !OnCycle(Usable(plugins), name)
    requires Loading(plugins, name, s0, s1, ran, done)
    requires LoadEffect(plugins, s1, s2, more) && KeepsLoadClosed(plugins, s1, s2)
    requires ChangedFrom(plugins, dep, s1, s2)
    ensures LoadEffect(plugins, s0, s2, ran + more) && KeepsLoadClosed(plugins, s0, s2)
    ensures ChangedBelow(plugins, name, s0, s2)
    ensures NoneFailed(s1, s2) && dep in s2 && s2[dep] != Registered ==>
              Loading(plugins, name, s0, s2, ran + more, done + [dep])
  {
    LoadsCompose(plugins, s0, s1, s2, ran, more);
    NotBackTo(Usable(plugins), name, dep);
    ReachesThrough(Usable(plugins), name, dep);
    if NoneFailed(s1, s2) && dep in s2 && s2[dep] != Registered {
      forall d | d in done + [dep] && d in s2 ensures s2[d] != Registered {
      }
    }
  }

  /** A dependency's load failed, so this one fails without running a hook. */
  lemma FailAfter(plugins: Catalog, s0: States, s1: States, ran: seq<Hook>, name: string)
    requires LoadEffect(plugins, s0, s1, ran) && name in s0 && s0[name] == Registered && s1[name] == Registered
    ensures LoadEffect(plugins, s0, s1[name := Failed], ran)
  {
  }

  /** The end of one plugin's load does not break the closure. */
  lemma EndKeepsClosed(plugins: Catalog, states: States, name: string, result: PluginState)
    requires name in plugins && name in states
    requires result == Failed || (result == Loaded && forall d | d in plugins[name].dependencies && d in states :: states[d] != Registered)
    ensures LoadClosed(plugins, states) ==> LoadClosed(plugins, states[name := result])
  {
  }

  /** Everything that changed is reachable from `name`. */
  ghost predicate ChangedFrom(plugins: Catalog, name: string, before: States, after: States) {
    forall n | n in before && n in after && after[n] != before[n] :: Reaches(Usable(plugins), name, n)
  }

  /** A load that ends without running hooks of its own: the plugin is FAILED. */
  lemma LoadFails(plugins: Catalog, name: string, s0: States, s1: States, ran: seq<Hook>)
    requires LoadEffect(plugins, s0, s1, ran) && KeepsLoadClosed(plugins, s0, s1) && ChangedBelow(plugins, name, s0, s1)
    requires name in plugins && name in s0 && s0[name] == Registered && s1[name] == Registered
    ensures LoadDone(plugins, name, s0, s1[name := Failed], ran, false)
  {
    EndKeepsClosed(plugins, s1, name, Failed);
    FailAfter(plugins, s0, s1, ran, name);
    ReachesSelf(Usable(plugins), name);
  }

  /** What a load of `name` has done by its end, and that none failed if it succeeded. */
  ghost predicate LoadDone(plugins: Catalog, name: string, before: States, after: States, ran: seq<Hook>, ok: bool) {
    && LoadEffect(plugins, before, after, ran)
    && ChangedFrom(plugins, name, before, after) && KeepsLoadClosed(plugins, before, after)
    && (ok ==> NoneFailed(before, after))
  }

  /** A load whose dependencies are loaded: its own hooks run, and the plugin has its final state. */
  lemma LoadEnds(plugins: Catalog, name: string, s0: States, s1: States, ran: seq<Hook>, n: nat, result: PluginState)
    requires name in plugins && s0.Keys == plugins.Keys && Loading(plugins, name, s0, s1, ran, plugins[name].dependencies)
    requires s0[name] == Registered && s1[name] == Registered
    requires n <= 2 && (result == Failed || (result == Loaded && n == 2))
    ensures LoadDone(plugins, name, s0, s1[name := result], ran + OwnHooks(name)[..n], result == Loaded)
  {
    ReachesSelf(Usable(plugins), name);
    EndKeepsClosed(plugins, s1, name, result);
    FinishLoad(plugins, s0, s1, ran, name, OwnHooks(name)[..n], result);
  }

  lemma NotBackTo(g: Graph<string>, name: string, dep: string)
    requires name in g && dep in g[name] && !OnCycle(g, name)
    ensures !Reaches(g, dep, name)
  {
    if Reaches(g, dep, name) {
      ClosesCycle(g, name, dep);
    }
  }

  lemma ReachesThrough(g: Graph<string>, name: string, dep: string)
    requires name in g && dep in g[name]
    ensures forall n | Reaches(g, dep, n) :: Reaches(g, name, n)
  {
    EdgeReaches(g, name, dep);
    forall n | Reaches(g, dep, n) ensures Reaches(g, name, n) {
      ReachesTrans(g, name, dep, n);
    }
  }

  lemma UsableIsDeclared(plugins: Catalog, name: string)
    ensures forall n | Reaches(Usable(plugins), name, n) :: Reaches(Declared(plugins), name, n)
  {
    forall n | Reaches(Usable(plugins), name, n) ensures Reaches(Declared(plugins), name, n) {
      var p :| IsWalk(Usable(plugins), p) && p[0] == name && Last(p) == n;
      assert IsWalk(Declared(plugins), p);
    }
  }

  // ---------------------------------------------------------------- what one start does

  /** ACTIVE stays, REGISTERED does not come back, and both closure properties survive. */
  ghost predicate StartEffect(plugins: Catalog, before: States, after: States) {
    && after.Keys == before.Keys
    && (forall n | n in before && before[n] == Active :: after[n] == Active)
    && (forall n | n in before && before[n] != Registered :: after[n] != Registered)
    && (ActiveClosed(plugins, before) ==> ActiveClosed(plugins, after))
    && (ActiveClosed(plugins, before) && LoadClosed(plugins, before) ==> LoadClosed(plugins, after))
  }

  lemma StartsCompose(plugins: Catalog, s0: States, s1: States, s2: States)
    requires StartEffect(plugins, s0, s1) && StartEffect(plugins, s1, s2)
    ensures StartEffect(plugins, s0, s2)
  {
  }

  lemma LoadIsStart(plugins: Catalog, before: States, after: States, ran: seq<Hook>)
    requires LoadEffect(plugins, before, after, ran)
    requires KeepsLoadClosed(plugins, before, after)
    ensures StartEffect(plugins, before, after)
  {
  }

  /** The last step of a start: a plugin that is not ACTIVE ends FAILED, or ACTIVE over ACTIVE dependencies. */
  lemma StartEnds(plugins: Catalog, before: States, name: string, result: PluginState)
    requires name in plugins && name in before && before[name] != Active
    requires result == Failed || (result == Active && forall d | d in plugins[name].dependencies :: d in before && before[d] == Active)
    ensures StartEffect(plugins, before, before[name := result])
  {
  }

  // ---------------------------------------------------------------- when a load succeeds

  predicate HooksReturn(hook: Hook -> bool, name: string) {
    hook(Hook(name, InitializeHook)) && hook(Hook(name, LoadHook))
  }

  predicate StillRegistered(states: States, name: string) {
    name in states && states[name] == Registered
  }

  /** The dependencies of the plugins that are still REGISTERED: the way a load goes. */
  ghost function ToLoad(plugins: Catalog, states: States): Graph<string> {
    map n | n in plugins && StillRegistered(states, n) :: set d | d in plugins[n].dependencies
  }

  /** Both load hooks return for every REGISTERED plugin reached from `name` through REGISTERED ones. */
  ghost predicate Loadable(plugins: Catalog, states: States, hook: Hook -> bool, name: string) {
    forall n | Reaches(ToLoad(plugins, states), name, n) && StillRegistered(states, n) :: HooksReturn(hook, n)
  }

  /** All of these are LOADED then. */
  ghost predicate AllLoaded(plugins: Catalog, before: States, after: States, name: string) {
    forall n | Reaches(ToLoad(plugins, before), name, n) && StillRegistered(before, n) :: n in after && after[n] == Loaded
  }

  /** What is REGISTERED no longer was sound, its hooks returned, and it sits on dependencies that are REGISTERED no longer. */
  ghost predicate FineLoad(plugins: Catalog, hook: Hook -> bool, before: States, after: States) {
    forall n | StillRegistered(before, n) && n in after && after[n] != Registered ::
      && n in plugins && Sound(Usable(plugins), n) && HooksReturn(hook, n)
      && forall d | d in plugins[n].dependencies && StillRegistered(before, d) :: d in after && after[d] != Registered
  }

  /** None goes back to REGISTERED. */
  ghost predicate Forward(before: States, after: States) {
    after.Keys == before.Keys && forall n | n in before && before[n] != Registered :: after[n] != Registered
  }

  lemma FineCompose(plugins: Catalog, hook: Hook -> bool, s0: States, s1: States, s2: States)
    requires FineLoad(plugins, hook, s0, s1) && FineLoad(plugins, hook, s1, s2) && Forward(s0, s1) && Forward(s1, s2)
    ensures FineLoad(plugins, hook, s0, s2)
  {
    forall n | StillRegistered(s0, n) && n in s2 && s2[n] != Registered
      ensures n in plugins && Sound(Usable(plugins), n) && HooksReturn(hook, n)
      ensures forall d | d in plugins[n].dependencies && StillRegistered(s0, d) :: d in s2 && s2[d] != Registered
    {
      assert s1[n] == Registered ==> StillRegistered(s1, n);
      forall d | d in plugins[n].dependencies && StillRegistered(s0, d) ensures d in s2 && s2[d] != Registered {
        assert s1[d] == Registered ==> StillRegistered(s1, d);
      }
    }
  }

  /** A plugin whose dependencies are loaded and whose own hooks return. */
  lemma FineEnds(plugins: Catalog, hook: Hook -> bool, s0: States, s1: States, name: string)
    requires FineLoad(plugins, hook, s0, s1) && Forward(s0, s1) && name in plugins && name in s0
    requires Sound(Usable(plugins), name) && HooksReturn(hook, name)
    requires forall d | d in plugins[name].dependencies && d in s1 :: s1[d] != Registered
    ensures FineLoad(plugins, hook, s0, s1[name := Loaded])
  {
  }

  /** Along a walk through REGISTERED plugins from one that is loaded, all are loaded. */
  lemma {:induction false} FineWalk(plugins: Catalog, hook: Hook -> bool, s0: States, s1: States, p: seq<string>)
    requires FineLoad(plugins, hook, s0, s1) && Forward(s0, s1)
    requires IsWalk(ToLoad(plugins, s0), p) && p[0] in s1 && s1[p[0]] != Registered
    ensures StillRegistered(s0, Last(p)) ==> s1[Last(p)] != Registered
  {
    if |p| >= 2 {
      FirstEdge(ToLoad(plugins, s0), p);
      if StillRegistered(s0, p[1]) {
        FineWalk(plugins, hook, s0, s1, p[1..]);
      }
    }
  }

  lemma FineReaches(plugins: Catalog, hook: Hook -> bool, s0: States, s1: States, name: string)
    requires FineLoad(plugins, hook, s0, s1) && Forward(s0, s1) && name in s1 && s1[name] != Registered
    ensures forall n | Reaches(ToLoad(plugins, s0), name, n) && StillRegistered(s0, n) :: s1[n] != Registered && HooksReturn(hook, n)
    ensures Loadable(plugins, s0, hook, name)
  {
    forall n | Reaches(ToLoad(plugins, s0), name, n) && StillRegistered(s0, n) ensures s1[n] != Registered && HooksReturn(hook, n) {
      var p :| IsWalk(ToLoad(plugins, s0), p) && p[0] == name && Last(p) == n;
      FineWalk(plugins, hook, s0, s1, p);
    }
  }

  /** The more plugins are REGISTERED the further a load goes. */
  lemma ToLoadGrows(plugins: Catalog, s0: States, s1: States, a: string, b: string)
    requires Forward(s0, s1) && Reaches(ToLoad(plugins, s1), a, b)
    ensures Reaches(ToLoad(plugins, s0), a, b)
  {
    var p :| IsWalk(ToLoad(plugins, s1), p) && p[0] == a && Last(p) == b;
    assert IsWalk(ToLoad(plugins, s0), p);
  }

  /** What keeps a dependency from being loaded later keeps the plugin from being loaded. */
  lemma FailsFurther(plugins: Catalog, hook: Hook -> bool, s0: States, s1: States, name: string, dep: string)
    requires Forward(s0, s1) && name in plugins && StillRegistered(s0, name) && dep in plugins[name].dependencies
    requires !Loadable(plugins, s1, hook, dep)
    ensures !Loadable(plugins, s0, hook, name)
  {
    var n :| Reaches(ToLoad(plugins, s1), dep, n) && StillRegistered(s1, n) && !HooksReturn(hook, n);
    ToLoadGrows(plugins, s0, s1, dep, n);
    EdgeReaches(ToLoad(plugins, s0), name, dep);
    ReachesTrans(ToLoad(plugins, s0), name, dep, n);
  }

  lemma OwnHooksFail(plugins: Catalog, hook: Hook -> bool, states: States, name: string)
    requires StillRegistered(states, name) && !HooksReturn(hook, name)
    ensures !Loadable(plugins, states, hook, name)
  {
    ReachesSelf(ToLoad(plugins, states), name);
  }

  /** The end of a load: over loaded dependencies, everything hangs on the plugin's own hooks. */
  lemma LoadConcludes(plugins: Catalog, hook: Hook -> bool, name: string, s0: States, s1: States, ran: seq<Hook>, n: nat, result: PluginState)
    requires name in plugins && s0.Keys == plugins.Keys && Loading(plugins, name, s0, s1, ran, plugins[name].dependencies)
    requires s0[name] == Registered && s1[name] == Registered && FineLoad(plugins, hook, s0, s1) && Sound(Usable(plugins), name)
    requires n <= 2 && (result == Failed || (result == Loaded && n == 2))
    requires result == Loaded <==> HooksReturn(hook, name)
    ensures LoadDone(plugins, name, s0, s1[name := result], ran + OwnHooks(name)[..n], result == Loaded)
    ensures result == Loaded ==> FineLoad(plugins, hook, s0, s1[name := Loaded])
    ensures result == Failed ==> !Loadable(plugins, s0, hook, name)
  {
    LoadEnds(plugins, name, s0, s1, ran, n, result);
    if result == Loaded {
      FineEnds(plugins, hook, s0, s1, name);
    } else {
      OwnHooksFail(plugins, hook, s0, name);
    }
  }

  /** A load of a REGISTERED plugin returns exactly when it should, and then everything it needs is LOADED. */
  ghost predicate LoadOutcome(plugins: Catalog, hook: Hook -> bool, name: string, before: States, after: States, ok: bool) {
    && (ok <==> Sound(Usable(plugins), name) && Loadable(plugins, before, hook, name))
    && (ok ==> FineLoad(plugins, hook, before, after) && AllLoaded(plugins, before, after, name))
  }

  lemma FineOutcome(plugins: Catalog, hook: Hook -> bool, name: string, before: States, after: States)
    requires FineLoad(plugins, hook, before, after) && OnlyLoads(before, after) && NoneFailed(before, after)
    requires StillRegistered(before, name) && after[name] != Registered
    ensures LoadOutcome(plugins, hook, name, before, after, true)
  {
    FineReaches(plugins, hook, before, after, name);
  }

  // ---------------------------------------------------------------- when a start succeeds

  predicate Running(states: States, name: string) {
    name in states && states[name] == Active
  }

  /** The dependencies of the plugins that are not ACTIVE: the way a start goes. */
  ghost function ToStart(plugins: Catalog, states: States): Graph<string> {
    map n | n in plugins && !Running(states, n) :: set d | d in plugins[n].dependencies
  }

  /** The plugin is registered, its start hook returns, and it can be loaded if that is still to be done. */
  ghost predicate CanStart(plugins: Catalog, states: States, hook: Hook -> bool, name: string) {
    && name in plugins && hook(Hook(name, StartHook))
    && (StillRegistered(states, name) ==> Sound(Usable(plugins), name) && Loadable(plugins, states, hook, name))
  }

  /** Every plugin that is not ACTIVE and is reached from `name` through such plugins can start. */
  ghost predicate Startable(plugins: Catalog, states: States, hook: Hook -> bool, name: string) {
    forall n | Reaches(ToStart(plugins, states), name, n) && !Running(states, n) :: CanStart(plugins, states, hook, n)
  }

  ghost predicate AllRunning(plugins: Catalog, before: States, after: States, name: string) {
    forall n | Reaches(ToStart(plugins, before), name, n) :: Running(after, n)
  }

  /** What became ACTIVE has a start hook that returned and ACTIVE dependencies. */
  ghost predicate FineStart(plugins: Catalog, hook: Hook -> bool, before: States, after: States) {
    forall n | !Running(before, n) && Running(after, n) ::
      n in plugins && hook(Hook(n, StartHook)) && forall d | d in plugins[n].dependencies :: Running(after, d)
  }

  /** What a start that returned has done to the plugins it touched. */
  ghost predicate Fine(plugins: Catalog, hook: Hook -> bool, before: States, after: States) {
    FineLoad(plugins, hook, before, after) && FineStart(plugins, hook, before, after)
  }

  /** None goes back to REGISTERED, and ACTIVE stays. */
  ghost predicate Onward(before: States, after: States) {
    Forward(before, after) && forall n | Running(before, n) :: Running(after, n)
  }

  lemma FineBoth(plugins: Catalog, hook: Hook -> bool, s0: States, s1: States, s2: States)
    requires Fine(plugins, hook, s0, s1) && Fine(plugins, hook, s1, s2) && Onward(s0, s1) && Onward(s1, s2)
    ensures Fine(plugins, hook, s0, s2)
  {
    FineCompose(plugins, hook, s0, s1, s2);
  }

  lemma {:induction false} StartWalk(plugins: Catalog, hook: Hook -> bool, s0: States, s1: States, p: seq<string>)
    requires FineStart(plugins, hook, s0, s1) && Onward(s0, s1) && IsWalk(ToStart(plugins, s0), p) && Running(s1, p[0])
    ensures Running(s1, Last(p))
  {
    if |p| >= 2 {
      FirstEdge(ToStart(plugins, s0), p);
      StartWalk(plugins, hook, s0, s1, p[1..]);
    }
  }

  /** A start that returned: everything it needed is ACTIVE, and could start. */
  lemma StartReaches(plugins: Catalog, hook: Hook -> bool, s0: States, s1: States, name: string)
    requires Fine(plugins, hook, s0, s1) && Onward(s0, s1) && Running(s1, name)
    ensures AllRunning(plugins, s0, s1, name) && Startable(plugins, s0, hook, name)
  {
    forall n | Reaches(ToStart(plugins, s0), name, n)
      ensures Running(s1, n) && (!Running(s0, n) ==> CanStart(plugins, s0, hook, n))
    {
      var p :| IsWalk(ToStart(plugins, s0), p) && p[0] == name && Last(p) == n;
      StartWalk(plugins, hook, s0, s1, p);
      FineReaches(plugins, hook, s0, s1, n);
    }
  }

  lemma ToStartGrows(plugins: Catalog, s0: States, s1: States, a: string, b: string)
    requires Onward(s0, s1) && Reaches(ToStart(plugins, s1), a, b)
    ensures Reaches(ToStart(plugins, s0), a, b)
  {
    var p :| IsWalk(ToStart(plugins, s1), p) && p[0] == a && Last(p) == b;
    forall i | 0 <= i < |p| - 1 ensures p[i] in ToStart(plugins, s0) && p[i + 1] in ToStart(plugins, s0)[p[i]] {
      assert p[i] in ToStart(plugins, s1) && p[i + 1] in ToStart(plugins, s1)[p[i]];
    }
    assert IsWalk(ToStart(plugins, s0), p);
  }

  lemma CanStartEarlier(plugins: Catalog, hook: Hook -> bool, s0: States, s1: States, name: string)
    requires Onward(s0, s1) && CanStart(plugins, s0, hook, name)
    ensures CanStart(plugins, s1, hook, name)
  {
    if StillRegistered(s1, name) {
      assert StillRegistered(s0, name);
      forall n | Reaches(ToLoad(plugins, s1), name, n) && StillRegistered(s1, n) ensures HooksReturn(hook, n) {
        ToLoadGrows(plugins, s0, s1, name, n);
        assert StillRegistered(s0, n);
      }
    }
  }

  /** What keeps a dependency from starting later keeps the plugin from starting. */
  lemma StartFailsFurther(plugins: Catalog, hook: Hook -> bool, s0: States, s1: States, name: string, dep: string)
    requires Onward(s0, s1) && name in plugins && !Running(s0, name) && dep in plugins[name].dependencies
    requires !Startable(plugins, s1, hook, dep)
    ensures !Startable(plugins, s0, hook, name)
  {
    var n :| Reaches(ToStart(plugins, s1), dep, n) && !Running(s1, n) && !CanStart(plugins, s1, hook, n);
    ToStartGrows(plugins, s0, s1, dep, n);
    EdgeReaches(ToStart(plugins, s0), name, dep);
    ReachesTrans(ToStart(plugins, s0), name, dep, n);
    if CanStart(plugins, s0, hook, n) {
      CanStartEarlier(plugins, hook, s0, s1, n);
    }
  }

  lemma StartableEarlier(plugins: Catalog, hook: Hook -> bool, s0: States, s1: States, name: string)
    requires Onward(s0, s1) && !Startable(plugins, s1, hook, name)
    ensures !Startable(plugins, s0, hook, name)
  {
    var n :| Reaches(ToStart(plugins, s1), name, n) && !Running(s1, n) && !CanStart(plugins, s1, hook, n);
    ToStartGrows(plugins, s0, s1, name, n);
    if CanStart(plugins, s0, hook, n) {
      CanStartEarlier(plugins, hook, s0, s1, n);
    }
  }

  lemma RunningIsStarted(plugins: Catalog, hook: Hook -> bool, states: States, name: string)
    requires Running(states, name)
    ensures Startable(plugins, states, hook, name) && AllRunning(plugins, states, states, name)
  {
    forall n | Reaches(ToStart(plugins, states), name, n) ensures n == name {
      FirstStep(ToStart(plugins, states), name, n);
    }
  }

  lemma LoadIsFine(plugins: Catalog, hook: Hook -> bool, before: States, after: States)
    requires FineLoad(plugins, hook, before, after) && OnlyLoads(before, after)
    ensures Fine(plugins, hook, before, after)
  {
  }

  /** The plugin's own start hook returned, over ACTIVE dependencies. */
  lemma FineTop(plugins: Catalog, hook: Hook -> bool, s0: States, s1: States, name: string)
    requires Fine(plugins, hook, s0, s1) && Onward(s0, s1) && name in plugins && name in s1 && s1[name] != Registered
    requires hook(Hook(name, StartHook)) && forall d | d in plugins[name].dependencies :: Running(s1, d)
    ensures Fine(plugins, hook, s0, s1[name := Active])
  {
    var s2 := s1[name := Active];
    assert Fine(plugins, hook, s1, s2);
    FineBoth(plugins, hook, s0, s1, s2);
  }

  /** The end of a start: over ACTIVE dependencies everything hangs on the plugin's own hook. */
  lemma StartConcludes(plugins: Catalog, hook: Hook -> bool, s0: States, s1: States, name: string)
    requires Fine(plugins, hook, s0, s1) && Onward(s0, s1) && name in plugins && name in s1 && s1[name] != Registered
    requires !Running(s0, name) && forall d | d in plugins[name].dependencies :: d in s1 && s1[d] == Active
    ensures if hook(Hook(name, StartHook)) then Fine(plugins, hook, s0, s1[name := Active]) else !Startable(plugins, s0, hook, name)
  {
    if hook(Hook(name, StartHook)) {
      FineTop(plugins, hook, s0, s1, name);
    } else {
      CannotStart(plugins, hook, s0, name);
    }
  }

  lemma CannotStart(plugins: Catalog, hook: Hook -> bool, states: States, name: string)
    requires !Running(states, name) && !CanStart(plugins, states, hook, name)
    ensures !Startable(plugins, states, hook, name)
  {
    ReachesSelf(ToStart(plugins, states), name);
  }

  // ---------------------------------------------------------------- the registry

  /** The two sets a validation shares between its recursive calls. */
  class Visit {
    var visited: set<string>
    var stack: set<string>

    constructor ()
      ensures visited == {} && stack == {}
    {
      visited, stack := {}, {};
    }
  }

  /** A walk of at least one edge. */
  ghost predicate ReachesOn(g: Graph<string>, a: string, b: string) {
    exists s :: a in g && s in g[a] && Reaches(g, s, b)
  }

  lemma ReachesOnStep(g: Graph<string>, a: string, b: string, c: string)
    requires ReachesOn(g, a, b) && b in g && c in g[b]
    ensures ReachesOn(g, a, c)
  {
    var s :| a in g && s in g[a] && Reaches(g, s, b);
    EdgeReaches(g, b, c);
    ReachesTrans(g, s, b, c);
  }

  /** What each kind of validation error means about the plugin validated. */
  ghost predicate Explains(plugins: Catalog, name: string, e: DependencyError) {
    && Reaches(Usable(plugins), name, e.name)
    && match e
       case CircularDependency(x) => OnCycle(Usable(plugins), x)
       case NotRegistered(x) => x !in plugins
       case Incompatible(x) => x in plugins && !plugins[x].compatible
  }

  lemma ExplainsFurther(plugins: Catalog, name: string, dep: string, e: DependencyError)
    requires name in Usable(plugins) && dep in Usable(plugins)[name] && Explains(plugins, dep, e)
    ensures Explains(plugins, name, e)
  {
    EdgeReaches(Usable(plugins), name, dep);
    ReachesTrans(Usable(plugins), name, dep, e.name);
  }

  lemma ExplainedIsUnsound(plugins: Catalog, name: string, e: DependencyError)
    requires Explains(plugins, name, e)
    ensures !Sound(Usable(plugins), name)
  {
  }

  class PluginRegistry {
    var order: seq<string>
    var plugins: Catalog
    var states: States

    ghost predicate Valid()
      reads this
    {
      states.Keys == plugins.Keys && Distinct(order) && forall n :: n in order <==> n in plugins
    }

    constructor ()
      ensures Valid() && plugins == map[]
    {
      order, plugins, states := [], map[], map[];
    }

    method Register(name: string, plugin: Plugin)
      requires Valid()
      modifies this
      ensures Valid() && plugins == old(plugins)[name := plugin] && states == old(states)[name := Registered]
      ensures order == if name in old(plugins) then old(order) else old(order) + [name]
    {
      if name !in plugins {
        order := order + [name];
      }
      plugins := plugins[name := plugin];
      states := states[name := Registered];
    }

    /**
     `validate_dependencies`, on every graph: it returns normally exactly when every plugin reachable
     from `name` is registered and version-compatible and no cycle is reachable from it.
     */
    method ValidateDependencies(name: string) returns (r: Result<(), DependencyError>)
      requires Valid()
      ensures r.Ok? <==> Sound(Usable(plugins), name)
      ensures r.Err? ==> Explains(plugins, name, r.error)
    {
      var visit := new Visit();
      r := Validate(name, visit);
    }

    /** The recursion, over the shared `visited` and `stack` sets. */
    method Validate(name: string, visit: Visit) returns (r: Result<(), DependencyError>)
      requires Valid()
      requires forall x | x in visit.visited :: Sound(Usable(plugins), x)
      requires forall x | x in visit.stack :: x in plugins && ReachesOn(Usable(plugins), x, name)
      modifies visit
      ensures r.Ok? <==> Sound(Usable(plugins), name)
      ensures r.Err? ==> Explains(plugins, name, r.error)
      ensures r.Ok? ==> visit.stack == old(visit.stack)
      ensures forall x | x in visit.visited :: Sound(Usable(plugins), x)
      decreases plugins.Keys - visit.stack
    {
      ghost var g := Usable(plugins);
      ReachesSelf(g, name);
      if name in visit.stack {
        ghost var s :| name in g && s in g[name] && Reaches(g, s, name);
        ClosesCycle(g, name, s);
        return Err(CircularDependency(name));
      }
      if name in visit.visited {
        return Ok(());
      }
      if name !in plugins {
        return Err(NotRegistered(name));
      }
      if !plugins[name].compatible {
        return Err(Incompatible(name));
      }
      visit.stack := visit.stack + {name};
      var dependencies := plugins[name].dependencies;
      SoundStep(g, name);
      for i := 0 to |dependencies|
        invariant visit.stack == old(visit.stack) + {name}
        invariant forall x | x in visit.visited :: Sound(g, x)
        invariant forall d | d in dependencies[..i] :: Sound(g, d)
      {
        var dep := dependencies[i];
        PrefixStep(dependencies, i);
        ReachesSelf(g, dep);
        forall x | x in visit.stack ensures ReachesOn(g, x, dep) {
          if x != name {
            ReachesOnStep(g, x, name, dep);
          }
        }
        r := Validate(dep, visit);
        if r.Err? {
          ExplainsFurther(plugins, name, dep, r.error);
          ExplainedIsUnsound(plugins, name, r.error);
          return r;
        }
      }
      assert dependencies[..|dependencies|] == dependencies;
      visit.stack := visit.stack - {name};
      visit.visited := visit.visited + {name};
      return Ok(());
    }

    /**
     `load_plugin`, with `hook(h)` telling whether a hook returns; `ran` lists the hooks run.
     It keeps `LoadClosed` whether it returns or raises, touches only plugins reachable from `name`,
     and runs each plugin's hooks at most once, after those of the dependencies it loads.
     */
    method LoadPlugin(name: string, hook: Hook -> bool) returns (r: Result<(), PluginError>, ghost ran: seq<Hook>)
      requires Valid()
      modifies this`states
      ensures Valid()
      ensures name !in plugins ==> r == Err(NotFound(name)) && states == old(states)
      ensures name in plugins && old(states)[name] != Registered ==> r.Ok? && states == old(states)
      ensures name in plugins && old(states)[name] == Registered ==> states[name] == if r.Ok? then Loaded else Failed
      ensures LoadEffect(plugins, old(states), states, ran)
      ensures ChangedFrom(plugins, name, old(states), states) && KeepsLoadClosed(plugins, old(states), states)
      ensures r.Ok? ==> name in plugins && NoneFailed(old(states), states) && FineLoad(plugins, hook, old(states), states)
      ensures name in plugins && old(states)[name] == Registered ==>
                && (r.Ok? <==> Sound(Usable(plugins), name) && Loadable(plugins, old(states), hook, name))
                && (r.Ok? ==> AllLoaded(plugins, old(states), states, name))
                && (r.Err? ==> r == Err(LoadFailed(name)))
      decreases |ReachSet(Usable(plugins), name)|, 3
    {
      ran := [];
      ReachesSelf(Usable(plugins), name);
      if name !in plugins {
        return Err(NotFound(name)), ran;
      }
      if states[name] != Registered {
        return Ok(()), ran;
      }
      r, ran := LoadRegistered(name, hook);
    }

    /** `load_plugin` for a plugin that is still REGISTERED. */
    method LoadRegistered(name: string, hook: Hook -> bool) returns (r: Result<(), PluginError>, ghost ran: seq<Hook>)
      requires Valid() && name in plugins && states[name] == Registered
      modifies this`states
      ensures Valid() && states[name] == if r.Ok? then Loaded else Failed
      ensures LoadDone(plugins, name, old(states), states, ran, r.Ok?)
      ensures LoadOutcome(plugins, hook, name, old(states), states, r.Ok?) && (r.Err? ==> r == Err(LoadFailed(name)))
      decreases |ReachSet(Usable(plugins), name)|, 2
    {
      var validated := ValidateDependencies(name);
      if validated.Err? {
        LoadFails(plugins, name, states, states, []);
        states := states[name := Failed];
        return Err(LoadFailed(name)), [];
      }
      r, ran := LoadValidated(name, hook);
      if r.Ok? {
        FineOutcome(plugins, hook, name, old(states), states);
      }
    }

    /** The rest of `load_plugin`: the dependencies, then the plugin's own hooks. */
    method LoadValidated(name: string, hook: Hook -> bool) returns (r: Result<(), PluginError>, ghost ran: seq<Hook>)
      requires Valid() && name in plugins && states[name] == Registered && Sound(Usable(plugins), name)
      modifies this`states
      ensures Valid() && states[name] == if r.Ok? then Loaded else Failed
      ensures LoadDone(plugins, name, old(states), states, ran, r.Ok?)
      ensures r.Ok? ==> FineLoad(plugins, hook, old(states), states)
      ensures r.Err? ==> !Loadable(plugins, old(states), hook, name) && r == Err(LoadFailed(name))
      decreases |ReachSet(Usable(plugins), name)|, 1
    {
      var loaded;
      loaded, ran := LoadDependencies(name, hook);
      if loaded.Err? {
        LoadFails(plugins, name, old(states), states, ran);
        states := states[name := Failed];
        return Err(LoadFailed(name)), ran;
      }
      ghost var now, n := states, 0;
      r, n := RunLoadHooks(name, hook);
      LoadConcludes(plugins, hook, name, old(states), now, ran, n, states[name]);
      ran := ran + OwnHooks(name)[..n];
    }

    /** The loop of `load_plugin` over the dependencies still to be loaded. */
    method LoadDependencies(name: string, hook: Hook -> bool) returns (r: Result<(), PluginError>, ghost ran: seq<Hook>)
      requires Valid() && name in plugins && states[name] == Registered && Sound(Usable(plugins), name)
      modifies this`states
      ensures Valid()
      ensures r.Ok? ==> FineLoad(plugins, hook, old(states), states)
      ensures r.Err? ==> !Loadable(plugins, old(states), hook, name)
      ensures LoadEffect(plugins, old(states), states, ran)
      ensures ChangedBelow(plugins, name, old(states), states) && KeepsLoadClosed(plugins, old(states), states)
      ensures r.Ok? ==> Loading(plugins, name, old(states), states, ran, plugins[name].dependencies)
      decreases |ReachSet(Usable(plugins), name)|, 0
    {
      ran := [];
      ghost var g := Usable(plugins);
      SoundStep(g, name);
      ReachesSelf(g, name);
      var dependencies := plugins[name].dependencies;
      for i := 0 to |dependencies|
        invariant Valid() && Loading(plugins, name, old(states), states, ran, dependencies[..i])
        invariant FineLoad(plugins, hook, old(states), states)
      {
        var dep := dependencies[i];
        PrefixStep(dependencies, i);
        assert dep in g[name];
        if dep in states && states[dep] == Registered {
          ReachSetShrinks(g, name, dep);
          FewerElements(ReachSet(g, dep), ReachSet(g, name));
          ghost var before := states;
          ghost var more;
          r, more := LoadPlugin(dep, hook);
          LoadingMore(plugins, name, dep, old(states), before, states, ran, more, dependencies[..i]);
          ran := ran + more;
          if r.Err? {
            SoundStep(g, name);
            FailsFurther(plugins, hook, old(states), before, name, dep);
            return r, ran;
          }
          FineCompose(plugins, hook, old(states), before, states);
        }
      }
      assert dependencies[..|dependencies|] == dependencies;
      return Ok(()), ran;
    }

    /** The end of `load_plugin`: both hooks, then LOADED, or FAILED at the first that raises; `n` of them ran. */
    method RunLoadHooks(name: string, hook: Hook -> bool) returns (r: Result<(), PluginError>, ghost n: nat)
      requires Valid() && name in plugins
      modifies this`states
      ensures Valid() && states == old(states)[name := if r.Ok? then Loaded else Failed]
      ensures r.Err? ==> r == Err(LoadFailed(name))
      ensures r.Ok? <==> hook(Hook(name, InitializeHook)) && hook(Hook(name, LoadHook))
      ensures n == if hook(Hook(name, InitializeHook)) then 2 else 1
    {
      if !hook(Hook(name, InitializeHook)) {
        states := states[name := Failed];
        return Err(LoadFailed(name)), 1;
      }
      if !hook(Hook(name, LoadHook)) {
        states := states[name := Failed];
        return Err(LoadFailed(name)), 2;
      }
      states := states[name := Loaded];
      return Ok(()), 2;
    }

    /**
     `start_plugin` on acyclic dependencies. It returns exactly when every plugin that is not ACTIVE and is
     reached through such plugins is registered, has a start hook that returns and, if it is still
     REGISTERED, can be loaded; then all of them end ACTIVE. Whether it returns or raises, every
     dependency of an ACTIVE plugin is still ACTIVE, an ACTIVE plugin stays ACTIVE and none goes back to
     REGISTERED.
     */
    method StartPlugin(name: string, hook: Hook -> bool) returns (r: Result<(), PluginError>)
      requires Valid() && AcyclicFrom(plugins, name)
      modifies this`states
      ensures Valid() && StartEffect(plugins, old(states), states)
      ensures name !in plugins ==> r == Err(NotFound(name)) && states == old(states)
      ensures name in plugins && old(states)[name] == Active ==> r.Ok? && states == old(states)
      ensures r.Ok? ==> name in plugins && states[name] == Active
      ensures r.Err? && name in plugins ==> states[name] != Active
      ensures r.Ok? <==> Startable(plugins, old(states), hook, name)
      ensures r.Ok? ==> AllRunning(plugins, old(states), states, name) && Fine(plugins, hook, old(states), states)
      ensures forall n | n in states && states[n] != old(states)[n] :: Reaches(Declared(plugins), name, n)
      decreases |ReachSet(Declared(plugins), name)|, 3
    {
      if name !in plugins {
        CannotStart(plugins, hook, states, name);
        return Err(NotFound(name));
      }
      if states[name] == Active {
        RunningIsStarted(plugins, hook, states, name);
        return Ok(());
      }
      r := StartInactive(name, hook);
      if r.Ok? {
        StartReaches(plugins, hook, old(states), states, name);
      }
    }

    /** `start_plugin` for a plugin that is not ACTIVE: load it if need be, its dependencies, its own hook. */
    method StartInactive(name: string, hook: Hook -> bool) returns (r: Result<(), PluginError>)
      requires Valid() && AcyclicFrom(plugins, name) && name in plugins && states[name] != Active
      modifies this`states
      ensures Valid() && StartEffect(plugins, old(states), states)
      ensures r.Ok? ==> Fine(plugins, hook, old(states), states) && states[name] == Active
      ensures r.Err? ==> !Startable(plugins, old(states), hook, name) && states[name] != Active
      ensures forall n | n in states && states[n] != old(states)[n] :: Reaches(Declared(plugins), name, n)
      decreases |ReachSet(Declared(plugins), name)|, 2
    {
      r := LoadFirst(name, hook);
      if r.Err? {
        CannotStart(plugins, hook, old(states), name);
        return r;
      }
      r := StartLoaded(name, hook, old(states));
    }

    /** The rest of `start_plugin`, after the load has led here from the states `s0`: the dependencies, then the own hook. */
    method StartLoaded(name: string, hook: Hook -> bool, ghost s0: States) returns (r: Result<(), PluginError>)
      requires Valid() && AcyclicFrom(plugins, name) && name in plugins && states[name] != Active && states[name] != Registered
      requires StartEffect(plugins, s0, states) && Fine(plugins, hook, s0, states)
      requires forall n | n in states && states[n] != s0[n] :: Reaches(Declared(plugins), name, n)
      modifies this`states
      ensures Valid() && StartEffect(plugins, s0, states)
      ensures r.Ok? ==> Fine(plugins, hook, s0, states) && states[name] == Active
      ensures r.Err? ==> !Startable(plugins, s0, hook, name) && states[name] != Active
      ensures forall n | n in states && states[n] != s0[n] :: Reaches(Declared(plugins), name, n)
      decreases |ReachSet(Declared(plugins), name)|, 1
    {
      ghost var loaded := states;
      ReachesSelf(Declared(plugins), name);
      r := StartDependencies(name, hook);
      StartsCompose(plugins, s0, loaded, states);
      if r.Err? {
        StartableEarlier(plugins, hook, s0, loaded, name);
        return r;
      }
      FineBoth(plugins, hook, s0, loaded, states);
      r := FinishStart(name, hook, s0);
    }

    /** The load at the beginning of `start_plugin`, for a plugin that is still REGISTERED. */
    method LoadFirst(name: string, hook: Hook -> bool) returns (r: Result<(), PluginError>)
      requires Valid() && name in plugins && states[name] != Active
      modifies this`states
      ensures Valid() && StartEffect(plugins, old(states), states)
      ensures r.Ok? ==> Fine(plugins, hook, old(states), states) && states[name] != Registered
      ensures r.Err? ==> !CanStart(plugins, old(states), hook, name)
      ensures states[name] != Active
      ensures forall n | n in states && states[n] != old(states)[n] :: Reaches(Declared(plugins), name, n)
    {
      if states[name] != Registered {
        return Ok(());
      }
      ghost var ran;
      r, ran := LoadPlugin(name, hook);
      UsableIsDeclared(plugins, name);
      LoadIsStart(plugins, old(states), states, ran);
      if r.Ok? {
        LoadIsFine(plugins, hook, old(states), states);
      }
    }

    /** The plugin's own hook, and what that makes of a start from the states `s0`. */
    method FinishStart(name: string, hook: Hook -> bool, ghost s0: States) returns (r: Result<(), PluginError>)
      requires Valid() && name in plugins && states[name] != Active && states[name] != Registered && !Running(s0, name)
      requires StartEffect(plugins, s0, states) && Fine(plugins, hook, s0, states)
      requires forall d | d in plugins[name].dependencies :: d in states && states[d] == Active
      modifies this`states
      ensures Valid() && StartEffect(plugins, s0, states)
      ensures r.Ok? ==> Fine(plugins, hook, s0, states) && states == old(states)[name := Active]
      ensures r.Err? ==> !Startable(plugins, s0, hook, name) && states == old(states)[name := Failed]
    {
      ghost var ready := states;
      StartConcludes(plugins, hook, s0, ready, name);
      r := RunStartHook(name, hook);
      StartsCompose(plugins, s0, ready, states);
    }

    /** The end of `start_plugin`: its own hook, over ACTIVE dependencies. */
    method RunStartHook(name: string, hook: Hook -> bool) returns (r: Result<(), PluginError>)
      requires Valid() && name in plugins && states[name] != Active
      requires forall d | d in plugins[name].dependencies :: d in states && states[d] == Active
      modifies this`states
      ensures Valid() && StartEffect(plugins, old(states), states)
      ensures r == if hook(Hook(name, StartHook)) then Ok(()) else Err(StartFailed(name))
      ensures states == old(states)[name := if r.Ok? then Active else Failed]
    {
      if !hook(Hook(name, StartHook)) {
        StartEnds(plugins, states, name, Failed);
        states := states[name := Failed];
        return Err(StartFailed(name));
      }
      StartEnds(plugins, states, name, Active);
      states := states[name := Active];
      return Ok(());
    }

    /** The loop of `start_plugin` over the dependencies that are not ACTIVE. */
    method StartDependencies(name: string, hook: Hook -> bool) returns (r: Result<(), PluginError>)
      requires Valid() && AcyclicFrom(plugins, name) && name in plugins && states[name] != Active
      modifies this`states
      ensures Valid() && StartEffect(plugins, old(states), states)
      ensures r.Ok? ==> Fine(plugins, hook, old(states), states)
      ensures r.Err? ==> !Startable(plugins, old(states), hook, name)
      ensures r.Ok? ==> forall d | d in plugins[name].dependencies :: d in states && states[d] == Active
      ensures forall n | n in states && states[n] != old(states)[n] :: n != name && Reaches(Declared(plugins), name, n)
      decreases |ReachSet(Declared(plugins), name)|, 0
    {
      ghost var g := Declared(plugins);
      ReachesSelf(g, name);
      var dependencies := plugins[name].dependencies;
      for i := 0 to |dependencies|
        invariant Valid() && StartEffect(plugins, old(states), states) && Fine(plugins, hook, old(states), states)
        invariant forall n | n in states && states[n] != old(states)[n] :: n != name && Reaches(g, name, n)
        invariant forall d | d in dependencies[..i] :: d in states && states[d] == Active
      {
        var dep := dependencies[i];
        PrefixStep(dependencies, i);
        assert dep in g[name];
        if !(dep in states && states[dep] == Active) {
          ReachSetShrinks(g, name, dep);
          FewerElements(ReachSet(g, dep), ReachSet(g, name));
          ReachesThrough(g, name, dep);
          NotBackTo(g, name, dep);
          ghost var before := states;
          r := StartPlugin(dep, hook);
          StartsCompose(plugins, old(states), before, states);
          if r.Err? {
            StartFailsFurther(plugins, hook, old(states), before, name, dep);
            return r;
          }
          FineBoth(plugins, hook, old(states), before, states);
        }
      }
      assert dependencies[..|dependencies|] == dependencies;
      return Ok(());
    }

    /** `stop_plugin`, with `hook` telling whether the plugin's own stop returns. */
    method StopPlugin(name: string, hook: bool) returns (r: Result<(), PluginError>)
      requires Valid()
      modifies this`states
      ensures Valid()
      ensures name !in plugins ==> r == Err(NotFound(name)) && states == old(states)
      ensures name in plugins && old(states)[name] != Active ==> r.Ok? && states == old(states)
      ensures name in plugins && old(states)[name] == Active ==>
                && r == (if hook then Ok(()) else Err(StopFailed(name)))
                && states == old(states)[name := if hook then Stopped else Failed]
    {
      if name !in plugins {
        return Err(NotFound(name));
      }
      if states[name] != Active {
        return Ok(());
      }
      if !hook {
        states := states[name := Failed];
        return Err(StopFailed(name));
      }
      states := states[name := Stopped];
      return Ok(());
    }

    /** `unload_plugin`: an ACTIVE plugin is stopped first; one that is REGISTERED is left alone. */
    method UnloadPlugin(name: string, stopHook: bool, unloadHook: bool) returns (r: Result<(), PluginError>)
      requires Valid()
      modifies this`states
      ensures Valid()
      ensures name !in plugins ==> r == Err(NotFound(name)) && states == old(states)
      ensures name in plugins && old(states)[name] == Registered ==> r == Ok(()) && states == old(states)
      ensures name in plugins && old(states)[name] == Active && !stopHook ==>
                r == Err(StopFailed(name)) && states == old(states)[name := Failed]
      ensures name in plugins && old(states)[name] != Registered && (old(states)[name] == Active ==> stopHook) ==>
                && r == (if unloadHook then Ok(()) else Err(UnloadFailed(name)))
                && states == old(states)[name := if unloadHook then Registered else Failed]
    {
      if name !in plugins {
        return Err(NotFound(name));
      }
      if states[name] != Loaded && states[name] != Stopped && states[name] != Failed {
        if states[name] == Active {
          r := StopPlugin(name, stopHook);
          if r.Err? {
            return r;
          }
        } else {
          return Ok(());
        }
      }
      if !unloadHook {
        states := states[name := Failed];
        return Err(UnloadFailed(name));
      }
      states := states[name := Registered];
      return Ok(());
    }

    /** `unregister`: refused for an unknown plugin and while another one depends on it. */
    method Unregister(name: string) returns (ok: bool)
      requires Valid()
      modifies this
      ensures Valid()
      ensures ok <==> name in old(plugins) && forall n | n in old(plugins) && n != name :: name !in old(plugins)[n].dependencies
      ensures ok ==> plugins == old(plugins) - {name} && states == old(states) - {name} && order == Drop(old(order), name)
      ensures ok && ActiveClosed(old(plugins), old(states)) ==> ActiveClosed(plugins, states)
      ensures ok && LoadClosed(old(plugins), old(states)) ==> LoadClosed(plugins, states)
      ensures !ok ==> plugins == old(plugins) && states == old(states)
    {
      if name !in plugins {
        return false;
      }
      var needed := HasDependent(name);
      if needed {
        return false;
      }
      ForgetKeepsClosed(plugins, states, name);
      Forget(name);
      return true;
    }

    method HasDependent(name: string) returns (found: bool)
      requires Valid()
      ensures found <==> exists n :: n in plugins && n != name && name in plugins[n].dependencies
    {
      for i := 0 to |order|
        invariant forall n | n in order[..i] && n != name :: name !in plugins[n].dependencies
      {
        PrefixStep(order, i);
        assert order[i] in order;
        if order[i] != name && name in plugins[order[i]].dependencies {
          return true;
        }
      }
      assert order[..|order|] == order;
      return false;
    }

    method Forget(name: string)
      requires Valid()
      modifies this
      ensures Valid() && plugins == old(plugins) - {name} && states == old(states) - {name} && order == Drop(old(order), name)
    {
      plugins := plugins - {name};
      states := states - {name};
      order := Drop(order, name);
    }
  }

  lemma ForgetKeepsClosed(plugins: Catalog, states: States, name: string)
    requires states.Keys == plugins.Keys
    requires forall n | n in plugins && n != name :: name !in plugins[n].dependencies
    ensures ActiveClosed(plugins, states) ==> ActiveClosed(plugins - {name}, states - {name})
    ensures LoadClosed(plugins, states) ==> LoadClosed(plugins - {name}, states - {name})
  {
  }

  /** Stopping a plugin keeps ACTIVE closed under dependencies exactly when no other ACTIVE plugin needs it. */
  lemma StopKeepsClosedIff(plugins: Catalog, states: States, name: string, ended: PluginState)
    requires ActiveClosed(plugins, states) && name in plugins && states.Keys == plugins.Keys && ended != Active
    ensures ActiveClosed(plugins, states[name := ended]) <==>
              forall n | n in plugins && n != name && states[n] == Active :: name !in plugins[n].dependencies
  {
    var after := states[name := ended];
    if ActiveClosed(plugins, after) {
      forall n | n in plugins && n != name && states[n] == Active ensures name !in plugins[n].dependencies {
        assert after[n] == Active && after[name] != Active;
      }
    }
  }

  /** Unloading keeps the loaded plugins over loaded ones exactly when no other loaded, stopped or active plugin needs it. */
  lemma UnloadKeepsClosedIff(plugins: Catalog, states: States, name: string)
    requires LoadClosed(plugins, states) && name in plugins && states.Keys == plugins.Keys
    ensures LoadClosed(plugins, states[name := Registered]) <==>
              forall n | n in plugins && n != name && PastRegistered(states[n]) :: name !in plugins[n].dependencies
  {
    var after := states[name := Registered];
    if LoadClosed(plugins, after) {
      forall n | n in plugins && n != name && PastRegistered(states[n]) ensures name !in plugins[n].dependencies {
        assert after[n] == states[n] && after[name] == Registered;
      }
    }
  }

  /**
   Registering a plugin, over another one of that name or not, makes it REGISTERED: that keeps ACTIVE
   closed exactly when no other ACTIVE plugin needs a plugin of that name.
   */
  lemma RegisterKeepsActiveIff(plugins: Catalog, states: States, name: string, plugin: Plugin)
    requires ActiveClosed(plugins, states) && states.Keys == plugins.Keys
    ensures ActiveClosed(plugins[name := plugin], states[name := Registered]) <==>
              forall n | n in plugins && n != name && states[n] == Active :: name !in plugins[n].dependencies
  {
    var after, catalog := states[name := Registered], plugins[name := plugin];
    if ActiveClosed(catalog, after) {
      forall n | n in plugins && n != name && states[n] == Active ensures name !in plugins[n].dependencies {
        assert after[n] == Active && after[name] == Registered && catalog[n] == plugins[n];
      }
    }
  }

  /** And it keeps loaded plugins over loaded ones exactly when no other loaded, stopped or active plugin needs one of that name. */
  lemma RegisterKeepsLoadIff(plugins: Catalog, states: States, name: string, plugin: Plugin)
    requires LoadClosed(plugins, states) && states.Keys == plugins.Keys
    ensures LoadClosed(plugins[name := plugin], states[name := Registered]) <==>
              forall n | n in plugins && n != name && PastRegistered(states[n]) :: name !in plugins[n].dependencies
  {
    var after, catalog := states[name := Registered], plugins[name := plugin];
    if LoadClosed(catalog, after) {
      forall n | n in plugins && n != name && PastRegistered(states[n]) ensures name !in plugins[n].dependencies {
        assert after[n] == states[n] && after[name] == Registered && catalog[n] == plugins[n];
      }
    }
  }

  /** Changing the state of a plugin under an ACTIVE one. */
  lemma Underneath(plugins: Catalog, states: States, upper: string, lower: string, ended: PluginState)
    requires upper in plugins && upper in states && states[upper] == Active && upper != lower
    requires lower in plugins[upper].dependencies && ended != Active
    ensures !ActiveClosed(plugins, states[lower := ended])
    ensures ended == Registered ==> !LoadClosed(plugins, states[lower := ended])
  {
    var after := states[lower := ended];
    assert after[upper] == Active && after[lower] == ended;
  }

  /** A feed over a store, both running: stopping or unloading the store leaves the feed ACTIVE above it. */
  lemma StoppingUnderneath()
    ensures var plugins := map["store" := Plugin([], true), "feed" := Plugin(["store"], true)];
      var states := map["store" := Active, "feed" := Active];
      && ActiveClosed(plugins, states) && LoadClosed(plugins, states)
      && !ActiveClosed(plugins, states["store" := Stopped])
      && !ActiveClosed(plugins, states["store" := Registered]) && !LoadClosed(plugins, states["store" := Registered])
  {
    var plugins := map["store" := Plugin([], true), "feed" := Plugin(["store"], true)];
    var states := map["store" := Active, "feed" := Active];
    assert "feed" in states && states["feed"] == Active && plugins["feed"].dependencies == ["store"];
    Underneath(plugins, states, "feed", "store", Stopped);
    Underneath(plugins, states, "feed", "store", Registered);
  }
}
