/** The dependency injection container: recursive resolution over a stack, and cached singletons. */
module Container {
  import opened Prelude
  import opened Tallies
  import opened Graphs

  /** A service is registered under a class or under a name. */
  datatype Key = TypeKey(class_: string) | NameKey(name: string)

  datatype Lifetime = Singleton | Transient

  /** `annotation` is the parameter's type hint when that is a class. */
  datatype Parameter = Parameter(name: string, annotation: Option<string>, hasDefault: bool)

  /** What calling a factory does once its arguments are there. */
  datatype Outcome = Returns | ReturnsNone | Raises

  datatype Factory = Factory(parameters: seq<Parameter>, outcome: Outcome)

  /** `serial` tells objects built by different factory runs apart. */
  datatype Object = NoneObject | Given(id: nat) | DefaultOf(parameter: string) | Built(key: Key, serial: nat, arguments: seq<Object>)

  datatype Registration = Registration(lifetime: Lifetime, factory: Option<Factory>, instance: Object)

  datatype ResolutionError =
    | Circular(key: Key)
    | Unresolvable(owner: Key, parameter: string)
    | FactoryRaised(owner: Key)
    | NotRegistered(key: Key)
    | Autowiring(cause: ResolutionError)
  {
    /** The key the error is about. */
    function Culprit(): Key
    {
      match this
      case Circular(k) => k
      case Unresolvable(k, _) => k
      case FactoryRaised(k) => k
      case NotRegistered(k) => k
      case Autowiring(cause) => cause.Culprit()
    }
  }

  type Registrations = map<Key, Registration>

  /** The classes there are, with their constructors. */
  type Constructors = map<string, Factory>

  // ---------------------------------------------------------------- what a key needs

  predicate Cached(regs: Registrations, k: Key) {
    k in regs && regs[k].lifetime == Singleton && regs[k].instance != NoneObject
  }

  /** What a parameter is resolved by: its type if that is registered, else its name if that is. */
  function Lookup(regs: Registrations, p: Parameter): Option<Key> {
    if p.annotation.Some? && TypeKey(p.annotation.value) in regs then Some(TypeKey(p.annotation.value))
    else if NameKey(p.name) in regs then Some(NameKey(p.name))
    else None
  }

  predicate Bindable(regs: Registrations, p: Parameter) {
    Lookup(regs, p).Some? || p.hasDefault
  }

  /** What is called to build `k`; an unregistered class is built by its constructor. */
  function Blueprint(regs: Registrations, classes: Constructors, k: Key): Option<Factory> {
    if k in regs then regs[k].factory
    else if k.TypeKey? && k.class_ in classes then Some(classes[k.class_])
    else None
  }

  ghost function Classes(classes: Constructors): set<Key> {
    set c | c in classes :: TypeKey(c)
  }

  ghost function Universe(regs: Registrations, classes: Constructors): set<Key> {
    regs.Keys + Classes(classes)
  }

  ghost function Wanted(regs: Registrations, f: Factory): set<Key> {
    set p | p in f.parameters && Lookup(regs, p).Some? :: Lookup(regs, p).value
  }

  /** The keys building `k` resolves; none once it is cached. */
  ghost function Successors(regs: Registrations, classes: Constructors, k: Key): set<Key> {
    if Cached(regs, k) then {}
    else match Blueprint(regs, classes, k)
         case None => {}
         case Some(f) => Wanted(regs, f)
  }

  /** `k` itself stands in nobody's way: known, every parameter resolvable, and its factory does not raise. */
  ghost predicate Whole(regs: Registrations, classes: Constructors, k: Key) {
    && k in Universe(regs, classes)
    && (Cached(regs, k)
        || match Blueprint(regs, classes, k)
           case None => true
           case Some(f) => f.outcome != Raises && forall p | p in f.parameters :: Bindable(regs, p))
  }

  /** The dependencies through uncached registrations. */
  ghost function Wires(regs: Registrations, classes: Constructors): Graph<Key> {
    map k | k in Universe(regs, classes) :: Successors(regs, classes, k)
  }

  /** The same, with every key that is not whole missing. */
  ghost function Needs(regs: Registrations, classes: Constructors): Graph<Key> {
    map k | k in Universe(regs, classes) && Whole(regs, classes, k) :: Successors(regs, classes, k)
  }

  /** Nothing broken and no cycle is reachable from `key` through uncached registrations. */
  ghost predicate Resolvable(regs: Registrations, classes: Constructors, key: Key) {
    forall y | Reaches(Wires(regs, classes), key, y) :: Whole(regs, classes, y) && !OnCycle(Wires(regs, classes), y)
  }

  lemma {:induction false} WiresWalkIsNeedsWalk(regs: Registrations, classes: Constructors, p: seq<Key>)
    requires IsWalk(Wires(regs, classes), p) && Sound(Needs(regs, classes), p[0])
    ensures IsWalk(Needs(regs, classes), p)
  {
    SoundStep(Needs(regs, classes), p[0]);
    if |p| >= 2 {
      FirstEdge(Wires(regs, classes), p);
      WiresWalkIsNeedsWalk(regs, classes, p[1..]);
      Prepend(Needs(regs, classes), p);
    }
  }

  lemma NeedsWalkIsWiresWalk(regs: Registrations, classes: Constructors, p: seq<Key>)
    requires IsWalk(Needs(regs, classes), p)
    ensures IsWalk(Wires(regs, classes), p)
  {
  }

  lemma SoundIsResolvable(regs: Registrations, classes: Constructors, key: Key)
    requires Sound(Needs(regs, classes), key)
    ensures Resolvable(regs, classes, key)
  {
    forall y | Reaches(Wires(regs, classes), key, y) ensures Whole(regs, classes, y) && !OnCycle(Wires(regs, classes), y) {
      var p :| IsWalk(Wires(regs, classes), p) && p[0] == key && Last(p) == y;
      WiresWalkIsNeedsWalk(regs, classes, p);
      assert Reaches(Needs(regs, classes), key, y);
      SoundFurther(Needs(regs, classes), key, y);
      if OnCycle(Wires(regs, classes), y) {
        NeedsCycle(regs, classes, y);
      }
    }
  }

  lemma NeedsCycle(regs: Registrations, classes: Constructors, y: Key)
    requires OnCycle(Wires(regs, classes), y) && Sound(Needs(regs, classes), y)
    ensures OnCycle(Needs(regs, classes), y)
  {
    var c :| IsWalk(Wires(regs, classes), c) && |c| >= 2 && c[0] == y && Last(c) == y;
    WiresWalkIsNeedsWalk(regs, classes, c);
  }

  lemma SoundFurther(g: Graph<Key>, x: Key, y: Key)
    requires Sound(g, x) && Reaches(g, x, y)
    ensures Sound(g, y)
  {
    forall z | Reaches(g, y, z) ensures z in g && !OnCycle(g, z) {
      ReachesTrans(g, x, y, z);
    }
  }

  lemma ResolvableIsSound(regs: Registrations, classes: Constructors, key: Key)
    requires Resolvable(regs, classes, key)
    ensures Sound(Needs(regs, classes), key)
  {
    forall y | Reaches(Needs(regs, classes), key, y) ensures y in Needs(regs, classes) && !OnCycle(Needs(regs, classes), y) {
      var p :| IsWalk(Needs(regs, classes), p) && p[0] == key && Last(p) == y;
      NeedsWalkIsWiresWalk(regs, classes, p);
      assert Reaches(Wires(regs, classes), key, y);
      WiresCycle(regs, classes, y);
    }
  }

  lemma WiresCycle(regs: Registrations, classes: Constructors, y: Key)
    ensures OnCycle(Needs(regs, classes), y) ==> OnCycle(Wires(regs, classes), y)
  {
    if OnCycle(Needs(regs, classes), y) {
      var c :| IsWalk(Needs(regs, classes), c) && |c| >= 2 && c[0] == y && Last(c) == y;
      NeedsWalkIsWiresWalk(regs, classes, c);
    }
  }

  // ---------------------------------------------------------------- what a resolution may change

  ghost predicate NewlyCached(before: Registrations, after: Registrations, k: Key) {
    k in before && k in after && after[k] != before[k]
  }

  /** A singleton without an instance whose factory would give it one. */
  predicate Pending(regs: Registrations, k: Key) {
    && k in regs && regs[k].lifetime == Singleton && regs[k].instance == NoneObject
    && regs[k].factory.Some? && regs[k].factory.value.outcome == Returns
  }

  ghost predicate OnlyCaches(before: Registrations, after: Registrations) {
    && after.Keys == before.Keys
    && forall k | NewlyCached(before, after, k) ::
         Pending(before, k) && after[k].instance != NoneObject && after[k] == before[k].(instance := after[k].instance)
  }

  /**
   The singletons that have an instance or whose factory would give them one: its factory runs exactly
   once if the key became cached, else not at all.
   */
  ghost predicate RanOnce(before: Registrations, after: Registrations, ran: seq<Key>) {
    forall k | Cached(before, k) || Pending(before, k) :: Times(ran, k) == if NewlyCached(before, after, k) then 1 else 0
  }

  /** Every singleton reachable from `x` through uncached registrations has its instance. */
  ghost predicate Settled(classes: Constructors, before: Registrations, x: Key, after: Registrations) {
    forall y | Reaches(Needs(before, classes), x, y) && Pending(before, y) :: Cached(after, y)
  }

  /** Nothing is cached before everything it needs. */
  ghost predicate Deep(classes: Constructors, before: Registrations, after: Registrations) {
    forall k | NewlyCached(before, after, k) :: Sound(Needs(before, classes), k) && Settled(classes, before, k, after)
  }

  ghost predicate Effect(classes: Constructors, before: Registrations, after: Registrations, ran: seq<Key>) {
    OnlyCaches(before, after) && RanOnce(before, after, ran) && Deep(classes, before, after)
  }

  lemma NoEffect(classes: Constructors, regs: Registrations)
    ensures Effect(classes, regs, regs, [])
  {
  }

  lemma LookupSame(before: Registrations, after: Registrations, p: Parameter)
    requires after.Keys == before.Keys
    ensures Lookup(after, p) == Lookup(before, p)
  {
    assert forall k :: k in before <==> k in before.Keys;
    assert forall k :: k in after <==> k in after.Keys;
  }

  lemma WantedSame(before: Registrations, after: Registrations, f: Factory)
    requires after.Keys == before.Keys
    ensures Wanted(after, f) == Wanted(before, f)
    ensures forall p | p in f.parameters :: Bindable(after, p) == Bindable(before, p)
  {
    forall p ensures Lookup(after, p) == Lookup(before, p) {
      LookupSame(before, after, p);
    }
  }

  lemma KeySame(classes: Constructors, before: Registrations, after: Registrations, k: Key)
    requires OnlyCaches(before, after) && k in Universe(before, classes)
    ensures !NewlyCached(before, after, k) ==> Successors(after, classes, k) == Successors(before, classes, k)
    ensures !NewlyCached(before, after, k) ==> Whole(after, classes, k) == Whole(before, classes, k)
    ensures NewlyCached(before, after, k) ==> Cached(after, k) && Successors(after, classes, k) == {} && Whole(after, classes, k)
  {
    assert Blueprint(after, classes, k) == Blueprint(before, classes, k);
    match Blueprint(before, classes, k)
    case None =>
    case Some(f) => WantedSame(before, after, f);
  }

  lemma NeedsTrimmed(classes: Constructors, before: Registrations, after: Registrations)
    requires OnlyCaches(before, after) && Deep(classes, before, after)
    ensures Trimmed(Needs(before, classes), Needs(after, classes))
  {
    forall k | k in Universe(before, classes)
      ensures k in Needs(before, classes) <==> k in Needs(after, classes)
      ensures k in Needs(before, classes) ==>
        Needs(after, classes)[k] == Needs(before, classes)[k] || (Needs(after, classes)[k] == {} && Sound(Needs(before, classes), k))
    {
      KeySame(classes, before, after, k);
      if NewlyCached(before, after, k) {
        SoundStep(Needs(before, classes), k);
      }
    }
  }

  lemma SoundSame(classes: Constructors, before: Registrations, after: Registrations, x: Key)
    requires OnlyCaches(before, after) && Deep(classes, before, after)
    ensures Sound(Needs(before, classes), x) <==> Sound(Needs(after, classes), x)
  {
    NeedsTrimmed(classes, before, after);
    TrimmedSound(Needs(before, classes), Needs(after, classes), x);
  }

  lemma TrimmedIsNewlyCached(classes: Constructors, before: Registrations, after: Registrations, k: Key)
    requires OnlyCaches(before, after) && Deep(classes, before, after)
    requires k in Needs(before, classes) && k in Needs(after, classes) && Needs(after, classes)[k] != Needs(before, classes)[k]
    ensures NewlyCached(before, after, k)
  {
    KeySame(classes, before, after, k);
  }

  /** What is settled later is settled as seen from the start. */
  lemma SettledLater(classes: Constructors, b0: Registrations, b1: Registrations, b2: Registrations, x: Key)
    requires OnlyCaches(b0, b1) && Deep(classes, b0, b1) && OnlyCaches(b1, b2) && Settled(classes, b1, x, b2)
    ensures Settled(classes, b0, x, b2)
  {
    NeedsTrimmed(classes, b0, b1);
    forall y | Reaches(Needs(b0, classes), x, y) && Pending(b0, y) ensures Cached(b2, y) {
      var p :| IsWalk(Needs(b0, classes), p) && p[0] == x && Last(p) == y;
      TrimmedWalk(Needs(b0, classes), Needs(b1, classes), p);
      if IsWalk(Needs(b1, classes), p) {
        assert Reaches(Needs(b1, classes), x, y);
      } else {
        var k :| k in Needs(b0, classes) && Needs(b1, classes)[k] != Needs(b0, classes)[k] && Reaches(Needs(b0, classes), k, y);
        TrimmedIsNewlyCached(classes, b0, b1, k);
      }
    }
  }

  lemma SettledStays(classes: Constructors, b0: Registrations, b1: Registrations, b2: Registrations, x: Key)
    requires OnlyCaches(b0, b1) && OnlyCaches(b1, b2) && Settled(classes, b0, x, b1)
    ensures Settled(classes, b0, x, b2)
  {
  }

  lemma DeepCompose(classes: Constructors, b0: Registrations, b1: Registrations, b2: Registrations)
    requires OnlyCaches(b0, b1) && Deep(classes, b0, b1) && OnlyCaches(b1, b2) && Deep(classes, b1, b2)
    ensures Deep(classes, b0, b2)
  {
    forall k | NewlyCached(b0, b2, k) ensures Sound(Needs(b0, classes), k) && Settled(classes, b0, k, b2) {
      if NewlyCached(b0, b1, k) {
        SettledStays(classes, b0, b1, b2, k);
      } else {
        SoundSame(classes, b0, b1, k);
        SettledLater(classes, b0, b1, b2, k);
      }
    }
  }

  /** Two resolutions in a row are one. */
  lemma EffectsCompose(classes: Constructors, b0: Registrations, b1: Registrations, b2: Registrations, ran1: seq<Key>, ran2: seq<Key>)
    requires Effect(classes, b0, b1, ran1) && Effect(classes, b1, b2, ran2)
    ensures Effect(classes, b0, b2, ran1 + ran2)
  {
    DeepCompose(classes, b0, b1, b2);
    forall k | Cached(b0, k) || Pending(b0, k) ensures Times(ran1 + ran2, k) == if NewlyCached(b0, b2, k) then 1 else 0 {
      TimesConcat(ran1, ran2, k);
    }
  }

  // ---------------------------------------------------------------- factories that raise

  /** Asking for `k` calls a factory or constructor that raises. */
  ghost predicate Raising(regs: Registrations, classes: Constructors, k: Key) {
    !Cached(regs, k) && match Blueprint(regs, classes, k) case Some(f) => f.outcome == Raises case None => false
  }

  /** Whose factory raised, if the resolution ended that way. */
  function RaisedBy<T>(r: Result<T, ResolutionError>): Option<Key> {
    if r.Err? && r.error.FactoryRaised? then Some(r.error.owner) else None
  }

  /** A raising factory ran exactly once if it is the one the resolution ended with, else not at all. */
  ghost predicate RaisedOnce(classes: Constructors, before: Registrations, ran: seq<Key>, culprit: Option<Key>) {
    forall k | Raising(before, classes, k) :: Times(ran, k) == if culprit == Some(k) then 1 else 0
  }

  lemma RaisingSame(classes: Constructors, before: Registrations, after: Registrations, k: Key)
    requires OnlyCaches(before, after) && Raising(before, classes, k)
    ensures Raising(after, classes, k)
  {
    assert k in before <==> k in before.Keys;
    assert k in after <==> k in after.Keys;
    assert !NewlyCached(before, after, k);
  }

  /** Nothing raised in the first resolution: in the two together it is as in the second. */
  lemma RaisedCompose(classes: Constructors, b0: Registrations, b1: Registrations, ran1: seq<Key>, ran2: seq<Key>, culprit: Option<Key>)
    requires OnlyCaches(b0, b1) && RaisedOnce(classes, b0, ran1, None) && RaisedOnce(classes, b1, ran2, culprit)
    ensures RaisedOnce(classes, b0, ran1 + ran2, culprit)
  {
    forall k | Raising(b0, classes, k) ensures Times(ran1 + ran2, k) == if culprit == Some(k) then 1 else 0 {
      RaisingSame(classes, b0, b1, k);
      TimesConcat(ran1, ran2, k);
    }
  }

  lemma RaisedAppend(classes: Constructors, before: Registrations, ran: seq<Key>, key: Key)
    requires RaisedOnce(classes, before, ran, None)
    ensures RaisedOnce(classes, before, ran + [key], if Raising(before, classes, key) then Some(key) else None)
  {
    forall k | Raising(before, classes, k) ensures Times(ran + [key], k) == if key == k then 1 else 0 {
      TimesAppend(ran, key, k);
    }
  }

  // ---------------------------------------------------------------- the last step of a resolution

  /** Every parameter of `f` was resolved. */
  ghost predicate AllSettled(classes: Constructors, before: Registrations, f: Factory, after: Registrations) {
    && (forall p | p in f.parameters :: Bindable(before, p))
    && (forall s | s in Wanted(before, f) :: Sound(Needs(before, classes), s) && Settled(classes, before, s, after))
  }

  /** A factory whose run leaves nothing in the cache. */
  lemma RunsUncached(classes: Constructors, before: Registrations, after: Registrations, ran: seq<Key>, key: Key)
    requires Effect(classes, before, after, ran) && !Cached(before, key) && !Pending(before, key)
    ensures Effect(classes, before, after, ran + [key])
  {
    forall k | Cached(before, k) || Pending(before, k) ensures Times(ran + [key], k) == Times(ran, k) {
      TimesAppend(ran, key, k);
    }
  }

  lemma BuiltIsSound(classes: Constructors, before: Registrations, after: Registrations, key: Key, f: Factory)
    requires key in Universe(before, classes) && !Cached(before, key)
    requires Blueprint(before, classes, key) == Some(f) && f.outcome != Raises && AllSettled(classes, before, f, after)
    ensures Sound(Needs(before, classes), key)
    ensures forall y | Reaches(Needs(before, classes), key, y) && Pending(before, y) && y != key :: Cached(after, y)
  {
    ghost var g := Needs(before, classes);
    assert g[key] == Wanted(before, f);
    SoundStep(g, key);
    forall y | Reaches(g, key, y) && Pending(before, y) && y != key ensures Cached(after, y) {
      var p :| IsWalk(g, p) && p[0] == key && Last(p) == y;
      FirstEdge(g, p);
    }
  }

  /** A singleton's factory ran and its instance is cached. */
  lemma RunsCached(classes: Constructors, before: Registrations, after: Registrations, ran: seq<Key>, key: Key, built: Object)
    requires Effect(classes, before, after, ran) && Pending(before, key) && after[key] == before[key] && built != NoneObject
    requires AllSettled(classes, before, before[key].factory.value, after)
    ensures Effect(classes, before, after[key := after[key].(instance := built)], ran + [key])
    ensures Settled(classes, before, key, after[key := after[key].(instance := built)])
  {
    var done := after[key := after[key].(instance := built)];
    BuiltIsSound(classes, before, after, key, before[key].factory.value);
    assert OnlyCaches(before, done);
    assert OnlyCaches(after, done);
    forall k | Cached(before, k) || Pending(before, k)
      ensures Times(ran + [key], k) == if NewlyCached(before, done, k) then 1 else 0
    {
      TimesAppend(ran, key, k);
    }
    forall k | NewlyCached(before, done, k) && k != key ensures Sound(Needs(before, classes), k) && Settled(classes, before, k, done) {
      assert NewlyCached(before, after, k);
      SettledStays(classes, before, after, done, k);
    }
  }

  ghost predicate SettledSoFar(classes: Constructors, before: Registrations, parameters: seq<Parameter>, after: Registrations) {
    forall p | p in parameters ::
      Bindable(before, p) &&
      (Lookup(before, p).Some? ==>
         Sound(Needs(before, classes), Lookup(before, p).value) && Settled(classes, before, Lookup(before, p).value, after))
  }

  lemma SettledAll(classes: Constructors, before: Registrations, f: Factory, after: Registrations)
    requires SettledSoFar(classes, before, f.parameters, after)
    ensures AllSettled(classes, before, f, after)
  {
  }

  /** One more parameter resolved. */
  lemma StepSettles(classes: Constructors, b0: Registrations, b1: Registrations, b2: Registrations, parameters: seq<Parameter>, p: Parameter, dep: Key)
    requires OnlyCaches(b0, b1) && Deep(classes, b0, b1) && OnlyCaches(b1, b2)
    requires SettledSoFar(classes, b0, parameters, b1) && Lookup(b0, p) == Some(dep)
    requires Resolvable(b1, classes, dep) && Settled(classes, b1, dep, b2)
    ensures SettledSoFar(classes, b0, parameters + [p], b2)
  {
    ResolvableIsSound(b1, classes, dep);
    SoundSame(classes, b0, b1, dep);
    SettledLater(classes, b0, b1, b2, dep);
    forall q | q in parameters && Lookup(b0, q).Some? ensures Settled(classes, b0, Lookup(b0, q).value, b2) {
      SettledStays(classes, b0, b1, b2, Lookup(b0, q).value);
    }
  }

  lemma WireOf(classes: Constructors, regs: Registrations, key: Key, f: Factory, p: Parameter)
    requires key in Universe(regs, classes) && !Cached(regs, key) && Blueprint(regs, classes, key) == Some(f)
    requires p in f.parameters && Lookup(regs, p).Some?
    ensures key in Wires(regs, classes) && Lookup(regs, p).value in Wires(regs, classes)[key] && Lookup(regs, p).value in regs
  {
  }

  // ---------------------------------------------------------------- what an error says

  /** Neither the parameter's class nor its name is registered, and it has no default. */
  predicate Unbound(regs: Registrations, p: Parameter) {
    !p.hasDefault && NameKey(p.name) !in regs && (p.annotation.Some? ==> TypeKey(p.annotation.value) !in regs)
  }

  ghost predicate Explains(regs: Registrations, classes: Constructors, key: Key, e: ResolutionError) {
    match e
    case Circular(x) => Reaches(Wires(regs, classes), key, x) && OnCycle(Wires(regs, classes), x)
    case Unresolvable(x, name) =>
      && Reaches(Wires(regs, classes), key, x) && !Cached(regs, x) && Blueprint(regs, classes, x).Some?
      && exists p :: p in Blueprint(regs, classes, x).value.parameters && p.name == name && Unbound(regs, p)
    case FactoryRaised(x) =>
      && Reaches(Wires(regs, classes), key, x) && !Cached(regs, x) && Blueprint(regs, classes, x).Some?
      && Blueprint(regs, classes, x).value.outcome == Raises
    case NotRegistered(x) => x == key && x !in Universe(regs, classes)
    case Autowiring(cause) => key !in regs && Explains(regs, classes, key, cause)
  }

  lemma {:induction false} ExplainedIsUnresolvable(regs: Registrations, classes: Constructors, key: Key, e: ResolutionError)
    requires Explains(regs, classes, key, e)
    ensures !Resolvable(regs, classes, key)
    decreases e
  {
    match e
    case Autowiring(cause) => ExplainedIsUnresolvable(regs, classes, key, cause);
    case NotRegistered(x) => ReachesSelf(Wires(regs, classes), key);
    case Circular(x) =>
    case Unresolvable(x, name) =>
    case FactoryRaised(x) =>
  }

  /** A walk that is still there was there before. */
  lemma WiresOnlyLose(classes: Constructors, before: Registrations, after: Registrations, p: seq<Key>)
    requires OnlyCaches(before, after) && IsWalk(Wires(after, classes), p)
    ensures IsWalk(Wires(before, classes), p)
  {
    forall i | 0 <= i < |p| - 1 ensures p[i] in Wires(before, classes) && p[i + 1] in Wires(before, classes)[p[i]] {
      assert p[i] in Wires(after, classes);
      KeySame(classes, before, after, p[i]);
    }
  }

  /** Caching keys off a path leaves the path. */
  lemma PathStays(classes: Constructors, before: Registrations, after: Registrations, p: seq<Key>)
    requires OnlyCaches(before, after) && IsWalk(Wires(before, classes), p)
    requires forall i | 0 <= i < |p| - 1 :: !NewlyCached(before, after, p[i])
    ensures IsWalk(Wires(after, classes), p)
  {
    forall i | 0 <= i < |p| - 1 ensures p[i] in Wires(after, classes) && p[i + 1] in Wires(after, classes)[p[i]] {
      KeySame(classes, before, after, p[i]);
    }
  }

  lemma ReachesEarlier(classes: Constructors, before: Registrations, after: Registrations, x: Key, y: Key)
    requires OnlyCaches(before, after)
    ensures Reaches(Wires(after, classes), x, y) ==> Reaches(Wires(before, classes), x, y)
    ensures OnCycle(Wires(after, classes), y) ==> OnCycle(Wires(before, classes), y)
  {
    if Reaches(Wires(after, classes), x, y) {
      var p :| IsWalk(Wires(after, classes), p) && p[0] == x && Last(p) == y;
      WiresOnlyLose(classes, before, after, p);
    }
    if OnCycle(Wires(after, classes), y) {
      var c :| IsWalk(Wires(after, classes), c) && |c| >= 2 && c[0] == y && Last(c) == y;
      WiresOnlyLose(classes, before, after, c);
    }
  }

  /** An error met while resolving a dependency later on explains why `key` cannot be resolved from the start. */
  lemma ExplainsFurther(classes: Constructors, before: Registrations, after: Registrations, key: Key, dep: Key, e: ResolutionError)
    requires OnlyCaches(before, after) && Explains(after, classes, dep, e)
    requires key in Wires(before, classes) && dep in Wires(before, classes)[key] && dep in before
    ensures Explains(before, classes, key, e) && !e.Autowiring?
  {
    EdgeReaches(Wires(before, classes), key, dep);
    if !e.Autowiring? {
      ReachesEarlier(classes, before, after, dep, e.Culprit());
      if Reaches(Wires(before, classes), dep, e.Culprit()) {
        ReachesTrans(Wires(before, classes), key, dep, e.Culprit());
      }
      assert Blueprint(after, classes, e.Culprit()) == Blueprint(before, classes, e.Culprit());
      if e.Unresolvable? {
        WantedSame(before, after, Blueprint(before, classes, e.owner).value);
      }
    }
  }

  // ---------------------------------------------------------------- what comes out of a resolution

  /** What calling `f` for `k` returns. */
  predicate ProductOf(f: Factory, k: Key, o: Object) {
    match f.outcome
    case Returns => o.Built? && o.key == k
    case ReturnsNone => o == NoneObject
    case Raises => false
  }

  /**
   `o` is what resolving `k` hands out: the one cached instance, or a fresh object of the factory that is
   registered, or what is registered without a factory, or a fresh object of the unregistered class.
   */
  predicate Provides(regs: Registrations, classes: Constructors, k: Key, o: Object) {
    && !Pending(regs, k)
    && (if k in regs && regs[k].lifetime == Singleton && regs[k].instance != NoneObject then o == regs[k].instance
        else if k in regs && regs[k].factory.Some? then ProductOf(regs[k].factory.value, k, o)
        else if k in regs then o == regs[k].instance
        else k.TypeKey? && k.class_ in classes && ProductOf(classes[k.class_], k, o))
  }

  /** The parameter's class is registered. */
  predicate TypeRegistered(regs: Registrations, p: Parameter) {
    p.annotation.Some? && TypeKey(p.annotation.value) in regs
  }

  predicate NameRegistered(regs: Registrations, p: Parameter) {
    NameKey(p.name) in regs
  }

  /** The argument is what the registered class provides, else what the registered name provides, else the default. */
  predicate Fits(regs: Registrations, classes: Constructors, p: Parameter, o: Object) {
    if TypeRegistered(regs, p) then Provides(regs, classes, TypeKey(p.annotation.value), o)
    else if NameRegistered(regs, p) then Provides(regs, classes, NameKey(p.name), o)
    else p.hasDefault && o == DefaultOf(p.name)
  }

  predicate Injected(regs: Registrations, classes: Constructors, parameters: seq<Parameter>, arguments: seq<Object>) {
    && |arguments| == |parameters|
    && forall i | 0 <= i < |parameters| :: Fits(regs, classes, parameters[i], arguments[i])
  }

  lemma FitsStays(classes: Constructors, before: Registrations, after: Registrations, parameters: seq<Parameter>, arguments: seq<Object>)
    requires OnlyCaches(before, after) && Injected(before, classes, parameters, arguments)
    ensures Injected(after, classes, parameters, arguments)
  {
    forall i | 0 <= i < |parameters| ensures Fits(after, classes, parameters[i], arguments[i]) {
      LookupSame(before, after, parameters[i]);
      assert Fits(before, classes, parameters[i], arguments[i]);
    }
  }

  /** An object built now, by the registered factory or the unregistered class, got its arguments by the rules. */
  ghost predicate WiredUp(before: Registrations, after: Registrations, classes: Constructors, key: Key, o: Object) {
    && (key in before && !Cached(before, key) && before[key].factory.Some? && before[key].factory.value.outcome == Returns ==>
          o.Built? && Injected(after, classes, before[key].factory.value.parameters, o.arguments))
    && (key !in before && key.TypeKey? && key.class_ in classes && classes[key.class_].outcome == Returns ==>
          o.Built? && Injected(after, classes, classes[key.class_].parameters, o.arguments))
  }

  /** Asking for `key` calls something, unless it is cached. */
  predicate HasFactory(regs: Registrations, key: Key) {
    key in regs ==> regs[key].factory.Some?
  }

  /** A key that needs nothing. */
  lemma LeafIsSettled(regs: Registrations, classes: Constructors, key: Key)
    requires key in regs && (Cached(regs, key) || regs[key].factory.None?)
    ensures Resolvable(regs, classes, key) && Settled(classes, regs, key, regs)
  {
    var g := Needs(regs, classes);
    assert Whole(regs, classes, key) && Successors(regs, classes, key) == {};
    SoundStep(g, key);
    SoundIsResolvable(regs, classes, key);
    forall y | Reaches(g, key, y) ensures y == key {
      FirstStep(g, key, y);
    }
  }

  lemma PathCloses(g: Graph<Key>, path: seq<Key>, key: Key)
    requires IsWalk(g, path + [key]) && key in path
    ensures OnCycle(g, key)
  {
    var k :| 0 <= k < |path| && path[k] == key;
    var whole := path + [key];
    var c := whole[k..];
    forall i | 0 <= i < |c| - 1 ensures c[i] in g && c[i + 1] in g[c[i]] {
      assert c[i] == whole[k + i] && c[i + 1] == whole[k + i + 1];
    }
    assert IsWalk(g, c) && |c| >= 2 && c[0] == key && Last(c) == key;
  }

  lemma PathGrows(g: Graph<Key>, path: seq<Key>, key: Key, dep: Key)
    requires IsWalk(g, path + [key]) && key in g && dep in g[key]
    ensures IsWalk(g, path + [key] + [dep])
  {
    var p, q := path + [key], path + [key] + [dep];
    forall i | 0 <= i < |q| - 1 ensures q[i] in g && q[i + 1] in g[q[i]] {
      if i < |p| - 1 {
        assert q[i] == p[i] && q[i + 1] == p[i + 1];
      }
    }
  }

  /** The stack stays inside the universe, so pushing a key uses the universe up. */
  lemma PushUsesUp(regs: Registrations, classes: Constructors, path: seq<Key>, key: Key)
    requires key !in path && key in Universe(regs, classes)
    ensures Universe(regs, classes) - (set k | k in path + [key]) < Universe(regs, classes) - (set k | k in path)
  {
    var more, less := Universe(regs, classes) - (set k | k in path), Universe(regs, classes) - (set k | k in path + [key]);
    assert key in path + [key];
    assert key in more && key !in less;
    assert forall k | k in less :: k in more;
  }

  lemma NotItsOwnSuccessor(g: Graph<Key>, key: Key)
    requires Sound(g, key)
    ensures key in g && key !in g[key]
  {
    ReachesSelf(g, key);
    if key in g && key in g[key] {
      ClosesCycle(g, key, key);
    }
  }

  /** Caching the product does not touch what its own parameters got. */
  lemma OwnArgumentsStay(classes: Constructors, before: Registrations, after: Registrations, key: Key, f: Factory, product: Object, arguments: seq<Object>)
    requires OnlyCaches(before, after) && key in before && Blueprint(before, classes, key) == Some(f)
    requires Sound(Needs(before, classes), key) && !Cached(before, key) && after[key] == before[key]
    requires Injected(after, classes, f.parameters, arguments)
    ensures Injected(after[key := after[key].(instance := product)], classes, f.parameters, arguments)
  {
    var done := after[key := after[key].(instance := product)];
    NotItsOwnSuccessor(Needs(before, classes), key);
    forall i | 0 <= i < |f.parameters| ensures Fits(done, classes, f.parameters[i], arguments[i]) {
      assert f.parameters[i] in f.parameters;
      LookupSame(before, after, f.parameters[i]);
      LookupSame(after, done, f.parameters[i]);
      assert Fits(after, classes, f.parameters[i], arguments[i]);
    }
  }

  /** In the middle of the loop over `key`'s parameters the stack leads to the next one's key. */
  lemma LeadsOn(classes: Constructors, before: Registrations, after: Registrations, path: seq<Key>, key: Key, f: Factory, p: Parameter)
    requires OnlyCaches(before, after) && path != [] && Last(path) == key && IsWalk(Wires(before, classes), path)
    requires forall k | k in path :: !NewlyCached(before, after, k)
    requires key in Universe(before, classes) && !Cached(before, key) && Blueprint(before, classes, key) == Some(f)
    requires p in f.parameters && Lookup(before, p).Some?
    ensures var dep := Lookup(before, p).value;
      && dep in before && key in Wires(before, classes) && dep in Wires(before, classes)[key]
      && IsWalk(Wires(after, classes), path + [dep])
  {
    var dep := Lookup(before, p).value;
    WireOf(classes, before, key, f, p);
    PathStays(classes, before, after, path);
    KeySame(classes, before, after, key);
    assert path == path[..|path| - 1] + [key];
    PathGrows(Wires(after, classes), path[..|path| - 1], key, dep);
  }

  // ---------------------------------------------------------------- the container

  class DIContainer {
    var registrations: Registrations
    const classes: Constructors
    /** The stack of keys under resolution. */
    var resolving: seq<Key>
    /** How many objects were built so far. */
    var serial: nat

    constructor (classes: Constructors)
      ensures this.classes == classes && registrations == map[] && resolving == []
    {
      this.classes, registrations, resolving, serial := classes, map[], [], 0;
    }

    /** The stack is a path of dependencies leading to `key`. */
    ghost predicate LeadsTo(key: Key)
      reads this
    {
      Distinct(resolving) && IsWalk(Wires(registrations, classes), resolving + [key])
    }

    method RegisterInstance(key: Key, instance: Object)
      modifies this`registrations
      ensures registrations == old(registrations)[key := Registration(Singleton, None, instance)]
    {
      registrations := registrations[key := Registration(Singleton, None, instance)];
    }

    method RegisterSingleton(key: Key, factory: Factory)
      modifies this`registrations
      ensures registrations == old(registrations)[key := Registration(Singleton, Some(factory), NoneObject)]
    {
      registrations := registrations[key := Registration(Singleton, Some(factory), NoneObject)];
    }

    method RegisterTransient(key: Key, factory: Factory)
      modifies this`registrations
      ensures registrations == old(registrations)[key := Registration(Transient, Some(factory), NoneObject)]
    {
      registrations := registrations[key := Registration(Transient, Some(factory), NoneObject)];
    }

    /**
     `resolve`. From a stack that leads to `key` it terminates, and returns exactly when nothing
     broken and no cycle is reachable from `key` through uncached registrations. On return every
     singleton so reachable is cached. Whatever happens, the factory of a singleton it could cache ran
     once if the key became cached and not at all otherwise, a raising one ran once if the resolution
     ended with it and not at all otherwise, and the stack is as it was. What a factory builds is an object
     that was not there before. A class asked for exists.
     */
    method Resolve(key: Key) returns (r: Result<Object, ResolutionError>, ghost ran: seq<Key>)
      requires LeadsTo(key)
      requires key.TypeKey? && key !in registrations ==> key.class_ in classes
      modifies this
      ensures resolving == old(resolving)
      ensures Effect(classes, old(registrations), registrations, ran)
      ensures RaisedOnce(classes, old(registrations), ran, RaisedBy(r))
      ensures forall k | k in resolving :: !NewlyCached(old(registrations), registrations, k)
      ensures r.Ok? <==> Resolvable(old(registrations), classes, key)
      ensures r.Ok? ==> Settled(classes, old(registrations), key, registrations)
      ensures r.Ok? ==> Provides(registrations, classes, key, r.value)
      ensures r.Ok? ==> WiredUp(old(registrations), registrations, classes, key, r.value)
      ensures r.Err? ==> Explains(old(registrations), classes, key, r.error)
      ensures old(Cached(registrations, key)) ==> r == Ok(old(registrations)[key].instance) && ran == []
      ensures old(serial) <= serial
      ensures r.Ok? && !old(Cached(registrations, key)) && old(HasFactory(registrations, key)) && r.value.Built? ==>
                old(serial) <= r.value.serial < serial
      decreases Universe(registrations, classes) - (set k | k in resolving), 0
    {
      ghost var before := registrations;
      ran := [];
      NoEffect(classes, before);
      ReachesSelf(Wires(before, classes), key);
      if key in registrations && registrations[key].lifetime == Singleton && registrations[key].instance != NoneObject {
        LeafIsSettled(before, classes, key);
        return Ok(registrations[key].instance), ran;
      }
      if key in resolving {
        PathCloses(Wires(before, classes), resolving, key);
        ExplainedIsUnresolvable(before, classes, key, Circular(key));
        return Err(Circular(key)), ran;
      }
      resolving := resolving + [key];
      match Blueprint(registrations, classes, key) {
      case None =>
        if key in registrations {
          LeafIsSettled(before, classes, key);
          r := Ok(registrations[key].instance);
        } else {
          r := Err(NotRegistered(key));
          ExplainedIsUnresolvable(before, classes, key, NotRegistered(key));
        }
      case Some(factory) =>
        PushUsesUp(registrations, classes, old(resolving), key);
        r, ran := Build(key, factory);
      }
      resolving := resolving[..|resolving| - 1];
      assert resolving == old(resolving);
    }

    /** Resolving the parameters of `key`'s factory and calling it, with `key` on the stack. */
    method Build(key: Key, factory: Factory) returns (r: Result<Object, ResolutionError>, ghost ran: seq<Key>)
      requires resolving != [] && Last(resolving) == key && Distinct(resolving)
      requires IsWalk(Wires(registrations, classes), resolving)
      requires key in Universe(registrations, classes) && !Cached(registrations, key) && Blueprint(registrations, classes, key) == Some(factory)
      modifies this
      ensures resolving == old(resolving)
      ensures Effect(classes, old(registrations), registrations, ran)
      ensures RaisedOnce(classes, old(registrations), ran, RaisedBy(r))
      ensures forall k | k in resolving && k != key :: !NewlyCached(old(registrations), registrations, k)
      ensures r.Ok? <==> Resolvable(old(registrations), classes, key)
      ensures r.Ok? ==> Settled(classes, old(registrations), key, registrations)
      ensures r.Ok? ==> Provides(registrations, classes, key, r.value)
      ensures r.Ok? ==> WiredUp(old(registrations), registrations, classes, key, r.value)
      ensures r.Err? ==> Explains(old(registrations), classes, key, r.error)
      ensures old(serial) <= serial && (r.Ok? && r.value.Built? ==> old(serial) <= r.value.serial < serial)
      decreases Universe(registrations, classes) - (set k | k in resolving), 2
    {
      ghost var before := registrations;
      ReachesSelf(Wires(before, classes), key);
      var arguments;
      arguments, ran := Arguments(key, factory);
      if arguments.Err? {
        // An unregistered class is being autowired: a resolution error is raised again as such.
        r := Err(if key in registrations || arguments.error.FactoryRaised? then arguments.error else Autowiring(arguments.error));
        ExplainedIsUnresolvable(before, classes, key, r.error);
      } else if factory.outcome == Raises {
        RunsUncached(classes, before, registrations, ran, key);
        RaisedAppend(classes, before, ran, key);
        ran := ran + [key];
        r := Err(FactoryRaised(key));
        ExplainedIsUnresolvable(before, classes, key, FactoryRaised(key));
      } else {
        var product := if factory.outcome == Returns then Built(key, serial, arguments.value) else NoneObject;
        serial := serial + 1;
        ran := Keep(key, factory, product, arguments.value, before, ran);
        r := Ok(product);
      }
    }

    /** The factory of `key` returned `product`: a singleton keeps it. */
    method Keep(key: Key, factory: Factory, product: Object, arguments: seq<Object>, ghost before: Registrations, ghost ran0: seq<Key>)
      returns (ghost ran: seq<Key>)
      requires Effect(classes, before, registrations, ran0) && key in Universe(before, classes)
      requires RaisedOnce(classes, before, ran0, None)
      requires !Cached(before, key) && !NewlyCached(before, registrations, key)
      requires Blueprint(before, classes, key) == Some(factory) && factory.outcome != Raises
      requires AllSettled(classes, before, factory, registrations)
      requires Injected(registrations, classes, factory.parameters, arguments)
      requires if factory.outcome == Returns then product.Built? && product.key == key && product.arguments == arguments else product == NoneObject
      modifies this`registrations
      ensures Effect(classes, before, registrations, ran) && RaisedOnce(classes, before, ran, None)
      ensures forall k | k != key && NewlyCached(before, registrations, k) :: NewlyCached(before, old(registrations), k)
      ensures Resolvable(before, classes, key) && Settled(classes, before, key, registrations)
      ensures Provides(registrations, classes, key, product) && WiredUp(before, registrations, classes, key, product)
    {
      ran := ran0 + [key];
      RaisedAppend(classes, before, ran0, key);
      BuiltIsSound(classes, before, registrations, key, factory);
      SoundIsResolvable(before, classes, key);
      ghost var after := registrations;
      if key in registrations && registrations[key].lifetime == Singleton {
        registrations := registrations[key := registrations[key].(instance := product)];
      }
      if Pending(before, key) {
        RunsCached(classes, before, after, ran0, key, product);
        OwnArgumentsStay(classes, before, after, key, factory, product, arguments);
      } else {
        assert registrations == after;
        RunsUncached(classes, before, after, ran0, key);
      }
    }

    /** The loop over a factory's parameters. */
    method Arguments(key: Key, factory: Factory) returns (r: Result<seq<Object>, ResolutionError>, ghost ran: seq<Key>)
      requires resolving != [] && Last(resolving) == key && Distinct(resolving)
      requires IsWalk(Wires(registrations, classes), resolving)
      requires key in Universe(registrations, classes) && !Cached(registrations, key) && Blueprint(registrations, classes, key) == Some(factory)
      modifies this
      ensures resolving == old(resolving)
      ensures Effect(classes, old(registrations), registrations, ran)
      ensures RaisedOnce(classes, old(registrations), ran, RaisedBy(r))
      ensures forall k | k in resolving :: !NewlyCached(old(registrations), registrations, k)
      ensures r.Ok? ==> AllSettled(classes, old(registrations), factory, registrations)
      ensures r.Ok? ==> Injected(registrations, classes, factory.parameters, r.value)
      ensures r.Err? ==> Explains(old(registrations), classes, key, r.error) && !r.error.Autowiring?
      ensures old(serial) <= serial
      decreases Universe(registrations, classes) - (set k | k in resolving), 1
    {
      ghost var before := registrations;
      ran := [];
      NoEffect(classes, before);
      ReachesSelf(Wires(before, classes), key);
      var arguments := [];
      var parameters := factory.parameters;
      for i := 0 to |parameters|
        invariant resolving == old(resolving) && old(serial) <= serial
        invariant Effect(classes, before, registrations, ran) && RaisedOnce(classes, before, ran, None)
        invariant forall k | k in resolving :: !NewlyCached(before, registrations, k)
        invariant SettledSoFar(classes, before, parameters[..i], registrations)
        invariant Injected(registrations, classes, parameters[..i], arguments)
      {
        var p := parameters[i];
        PrefixStep(parameters, i);
        LookupSame(before, registrations, p);
        ghost var now, ran0 := registrations, ran;
        match Lookup(registrations, p)
        case Some(dep) =>
          LeadsOn(classes, before, registrations, resolving, key, factory, p);
          var resolved;
          ghost var more;
          resolved, more := Resolve(dep);
          EffectsCompose(classes, before, now, registrations, ran0, more);
          RaisedCompose(classes, before, now, ran0, more, RaisedBy(resolved));
          ran := ran0 + more;
          if resolved.Err? {
            ExplainsFurther(classes, before, now, key, dep, resolved.error);
            return Err(resolved.error), ran;
          }
          StepSettles(classes, before, now, registrations, parameters[..i], p, dep);
          FitsStays(classes, now, registrations, parameters[..i], arguments);
          arguments := arguments + [resolved.value];
        case None =>
          if !p.hasDefault {
            return Err(Unresolvable(key, p.name)), ran;
          }
          arguments := arguments + [DefaultOf(p.name)];
      }
      assert parameters[..|parameters|] == parameters;
      SettledAll(classes, before, factory, registrations);
      return Ok(arguments), ran;
    }
  }
}
