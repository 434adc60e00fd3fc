/** Which worker a job goes to, in terms of what the workers report and hold. */
module JobRouting {
  import opened Prelude
  import opened JobProtocol

  /** An active worker that reports `capability`. */
  predicate Able(nodes: map<WorkerId, Node>, w: WorkerId, capability: string) {
    w in nodes && nodes[w].status == Active && capability in nodes[w].capabilities
  }

  predicate Awake(nodes: map<WorkerId, Node>, w: WorkerId) {
    w in nodes && nodes[w].status == Active
  }

  /** Of the workers of a class none holds fewer jobs than `c`, and none registered earlier holds as few. */
  ghost predicate FirstLeast(nodes: map<WorkerId, Node>, order: seq<WorkerId>, class_: WorkerId -> bool, c: WorkerId) {
    && c in order && class_(c)
    && (forall w | w in order && class_(w) :: Load(nodes, c) <= Load(nodes, w))
    && (forall a, b | 0 <= a < b < |order| && order[b] == c && class_(order[a]) :: Load(nodes, c) < Load(nodes, order[a]))
  }

  /** The first least loaded of the workers with the capability; without any, of the "default" ones; without any, of all active ones. */
  ghost predicate ChosenFor(nodes: map<WorkerId, Node>, order: seq<WorkerId>, capability: string, choice: Option<WorkerId>) {
    if exists w :: w in order && Able(nodes, w, capability)
    then choice.Some? && FirstLeast(nodes, order, w => Able(nodes, w, capability), choice.value)
    else if exists w :: w in order && Able(nodes, w, "default")
    then choice.Some? && FirstLeast(nodes, order, w => Able(nodes, w, "default"), choice.value)
    else if exists w :: w in order && Awake(nodes, w)
    then choice.Some? && FirstLeast(nodes, order, w => Awake(nodes, w), choice.value)
    else choice == None
  }

  // ---------------------------------------------------------------- filters keep the order

  /** `part` lists the elements of `whole` that satisfy `p`, in the same order. */
  ghost predicate Filters(whole: seq<WorkerId>, p: WorkerId -> bool, part: seq<WorkerId>) {
    && (forall w :: w in part <==> w in whole && p(w))
    && (forall a, b | 0 <= a < b < |whole| && p(whole[a]) && p(whole[b]) ::
          exists i, j :: 0 <= i < j < |part| && part[i] == whole[a] && part[j] == whole[b])
  }

  lemma FiltersNothing(p: WorkerId -> bool)
    ensures Filters([], p, [])
  {
  }

  lemma FiltersPrepend(whole: seq<WorkerId>, p: WorkerId -> bool, part: seq<WorkerId>, w: WorkerId)
    requires Filters(whole, p, part)
    ensures Filters([w] + whole, p, (if p(w) then [w] else []) + part)
  {
    var all, chosen := [w] + whole, (if p(w) then [w] else []) + part;
    var shift := if p(w) then 1 else 0;
    forall a, b | 0 <= a < b < |all| && p(all[a]) && p(all[b])
      ensures exists i, j :: 0 <= i < j < |chosen| && chosen[i] == all[a] && chosen[j] == all[b]
    {
      if a > 0 {
        assert p(whole[a - 1]) && p(whole[b - 1]);
        var i, j :| 0 <= i < j < |part| && part[i] == whole[a - 1] && part[j] == whole[b - 1];
        assert chosen[i + shift] == all[a] && chosen[j + shift] == all[b];
      } else {
        assert all[b] in part;
        var j :| 0 <= j < |part| && part[j] == all[b];
        assert chosen[0] == all[0] && chosen[j + 1] == all[b];
      }
    }
  }

  lemma {:induction false} ActiveFilters(nodes: map<WorkerId, Node>, ws: seq<WorkerId>)
    ensures Filters(ws, w => Awake(nodes, w), ActiveWorkers(nodes, ws))
  {
    if ws == [] {
      FiltersNothing(w => Awake(nodes, w));
    } else {
      ActiveFilters(nodes, ws[1..]);
      FiltersPrepend(ws[1..], w => Awake(nodes, w), ActiveWorkers(nodes, ws[1..]), ws[0]);
      assert [ws[0]] + ws[1..] == ws;
    }
  }

  lemma {:induction false} CapableFilters(nodes: map<WorkerId, Node>, ws: seq<WorkerId>, capability: string)
    ensures Filters(ws, w => w in nodes && capability in nodes[w].capabilities, WithCapability(nodes, ws, capability))
  {
    var p := w => w in nodes && capability in nodes[w].capabilities;
    if ws == [] {
      FiltersNothing(p);
    } else {
      CapableFilters(nodes, ws[1..], capability);
      FiltersPrepend(ws[1..], p, WithCapability(nodes, ws[1..], capability), ws[0]);
      assert [ws[0]] + ws[1..] == ws;
    }
  }

  lemma FiltersCompose(whole: seq<WorkerId>, p: WorkerId -> bool, part: seq<WorkerId>, q: WorkerId -> bool,
                       smaller: seq<WorkerId>, both: WorkerId -> bool)
    requires Distinct(whole) && Filters(whole, p, part) && Filters(part, q, smaller)
    requires forall w | w in whole :: both(w) <==> p(w) && q(w)
    ensures Filters(whole, both, smaller)
  {
    forall a, b | 0 <= a < b < |whole| && both(whole[a]) && both(whole[b])
      ensures exists i, j :: 0 <= i < j < |smaller| && smaller[i] == whole[a] && smaller[j] == whole[b]
    {
      var i, j :| 0 <= i < j < |part| && part[i] == whole[a] && part[j] == whole[b];
      assert q(part[i]) && q(part[j]);
    }
  }

  lemma AbleFilters(nodes: map<WorkerId, Node>, order: seq<WorkerId>, capability: string)
    requires Distinct(order)
    ensures Filters(order, w => Able(nodes, w, capability), Capable(nodes, order, capability))
  {
    ActiveFilters(nodes, order);
    CapableFilters(nodes, ActiveWorkers(nodes, order), capability);
    FiltersCompose(order, w => Awake(nodes, w), ActiveWorkers(nodes, order), w => w in nodes && capability in nodes[w].capabilities,
                   Capable(nodes, order, capability), w => Able(nodes, w, capability));
  }

  // ---------------------------------------------------------------- the first of the least loaded

  lemma {:induction false} LeastIsFirst(nodes: map<WorkerId, Node>, ws: seq<WorkerId>) returns (k: nat)
    requires ws != []
    ensures k < |ws| && ws[k] == LeastLoaded(nodes, ws)
    ensures forall i | 0 <= i < k :: Load(nodes, ws[k]) < Load(nodes, ws[i])
  {
    k := 0;
    if |ws| > 1 && !(Load(nodes, ws[0]) <= Load(nodes, LeastLoaded(nodes, ws[1..]))) {
      k := LeastIsFirst(nodes, ws[1..]);
      forall i | 0 <= i < k + 1 ensures Load(nodes, ws[k + 1]) < Load(nodes, ws[i]) {
        if i > 0 {
          assert ws[1..][i - 1] == ws[i];
        }
      }
      k := k + 1;
    }
  }

  lemma LeastOfClass(nodes: map<WorkerId, Node>, order: seq<WorkerId>, class_: WorkerId -> bool, ws: seq<WorkerId>)
    requires Distinct(order) && Filters(order, class_, ws) && Distinct(ws) && ws != []
    ensures FirstLeast(nodes, order, class_, LeastLoaded(nodes, ws))
  {
    var c := LeastLoaded(nodes, ws);
    var k := LeastIsFirst(nodes, ws);
    forall a, b | 0 <= a < b < |order| && order[b] == c && class_(order[a]) ensures Load(nodes, c) < Load(nodes, order[a]) {
      var i, j :| 0 <= i < j < |ws| && ws[i] == order[a] && ws[j] == order[b];
      assert j == k;
    }
  }

  lemma {:induction false} ActiveDistinct(nodes: map<WorkerId, Node>, ws: seq<WorkerId>)
    requires Distinct(ws)
    ensures Distinct(ActiveWorkers(nodes, ws))
  {
    if ws != [] {
      assert forall i | 1 <= i < |ws| :: ws[0] != ws[i];
      ActiveDistinct(nodes, ws[1..]);
    }
  }

  lemma {:induction false} CapableDistinct(nodes: map<WorkerId, Node>, ws: seq<WorkerId>, capability: string)
    requires Distinct(ws)
    ensures Distinct(WithCapability(nodes, ws, capability))
  {
    if ws != [] {
      assert forall i | 1 <= i < |ws| :: ws[0] != ws[i];
      CapableDistinct(nodes, ws[1..], capability);
    }
  }

  /** What a class of candidates gives: nothing without members, else the first of the least loaded. */
  lemma OfClass(nodes: map<WorkerId, Node>, order: seq<WorkerId>, capability: string)
    requires Distinct(order)
    ensures Capable(nodes, order, capability) == [] <==> !exists w :: w in order && Able(nodes, w, capability)
    ensures Capable(nodes, order, capability) != [] ==>
              FirstLeast(nodes, order, w => Able(nodes, w, capability), LeastLoaded(nodes, Capable(nodes, order, capability)))
  {
    var ws := Capable(nodes, order, capability);
    AbleFilters(nodes, order, capability);
    ActiveDistinct(nodes, order);
    CapableDistinct(nodes, ActiveWorkers(nodes, order), capability);
    if ws != [] {
      assert ws[0] in ws;
      LeastOfClass(nodes, order, w => Able(nodes, w, capability), ws);
    }
  }

  lemma OfActive(nodes: map<WorkerId, Node>, order: seq<WorkerId>)
    requires Distinct(order)
    ensures ActiveWorkers(nodes, order) == [] <==> !exists w :: w in order && Awake(nodes, w)
    ensures ActiveWorkers(nodes, order) != [] ==>
              FirstLeast(nodes, order, w => Awake(nodes, w), LeastLoaded(nodes, ActiveWorkers(nodes, order)))
  {
    var ws := ActiveWorkers(nodes, order);
    ActiveFilters(nodes, order);
    ActiveDistinct(nodes, order);
    if ws != [] {
      assert ws[0] in ws;
      LeastOfClass(nodes, order, w => Awake(nodes, w), ws);
    }
  }

  /**
   The choice for a job: by the capability it asks for, else by that of its named target, else among
   the "default" workers; nobody only when no worker is active.
   */
  ghost predicate RightChoice(nodes: map<WorkerId, Node>, order: seq<WorkerId>, spec: JobSpec, choice: Option<WorkerId>) {
    && (spec.capability.Some? ==> ChosenFor(nodes, order, spec.capability.value, choice))
    && (spec.capability.None? && spec.target.Named? ==> ChosenFor(nodes, order, "target:" + spec.target.name, choice))
    && (spec.capability.None? && spec.target.Callable? ==> ChosenFor(nodes, order, "default", choice))
  }

  lemma ChoiceMeans(nodes: map<WorkerId, Node>, order: seq<WorkerId>, spec: JobSpec)
    requires Distinct(order)
    ensures RightChoice(nodes, order, spec, PickByCapability(nodes, order, spec))
  {
    OfClass(nodes, order, RequiredCapability(spec));
    OfClass(nodes, order, "default");
    OfActive(nodes, order);
  }

  /**
   Where a submitted job goes: to the worker it asks for, if that one is active; else, if it asks for a
   capability, or some active worker reports its named target, to the worker chosen for that; else into
   the central queue, as when no worker is active.
   */
  ghost predicate RoutedTo(nodes: map<WorkerId, Node>, order: seq<WorkerId>, rec: JobRec, to: Option<WorkerId>) {
    if rec.workerId.Some? && Awake(nodes, rec.workerId.value) then to == rec.workerId
    else if rec.spec.capability.Some? then ChosenFor(nodes, order, rec.spec.capability.value, to)
    else if rec.spec.target.Named? && exists w :: w in order && Able(nodes, w, "target:" + rec.spec.target.name) then
      ChosenFor(nodes, order, "target:" + rec.spec.target.name, to)
    else to == None
  }

  lemma RouteMeans(nodes: map<WorkerId, Node>, order: seq<WorkerId>, rec: JobRec)
    requires Distinct(order)
    ensures RoutedTo(nodes, order, rec, Route(nodes, order, rec))
  {
    ChoiceMeans(nodes, order, rec.spec);
    if rec.spec.target.Named? {
      OfClass(nodes, order, "target:" + rec.spec.target.name);
    }
  }
}
