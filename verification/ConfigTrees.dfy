/** Configuration trees: merging layers, dotted lookup and dotted assignment. */
module ConfigTrees {
  import opened Prelude
  import opened Texts

  /** `Null` is None; every other value that is not a dictionary is a `Leaf`. */
  datatype Value = Null | Leaf(text: string) | Dict(entries: map<string, Value>)

  type Tree = v: Value | v.Dict? witness Dict(map[])
  type Path = seq<string>

  const EMPTY: Tree := Dict(map[])

  // ---------------------------------------------------------------- merging

  /** `_deep_update`: dictionaries are merged, everything else is replaced. */
  function Merge(base: Tree, update: Tree): Tree
    decreases update
  {
    Dict(map k | k in base.entries.Keys + update.entries.Keys :: MergedAt(base, update, k))
  }

  function MergedAt(base: Tree, update: Tree, k: string): Value
    requires k in base.entries || k in update.entries
    decreases update, 0
  {
    if k !in update.entries then base.entries[k]
    else if update.entries[k].Dict? && k in base.entries && base.entries[k].Dict? then Merge(base.entries[k], update.entries[k])
    else update.entries[k]
  }

  lemma MergeNothing(t: Tree)
    ensures Merge(t, EMPTY) == t && Merge(EMPTY, t) == t
  {
    assert Merge(t, EMPTY).entries == t.entries;
    assert Merge(EMPTY, t).entries == t.entries;
  }

  /** The loop over the update's items, recursing where both sides are dictionaries. */
  method DeepUpdate(base: Tree, update: Tree) returns (merged: Tree)
    ensures merged == Merge(base, update)
    decreases update
  {
    merged := base;
    var todo := update.entries.Keys;
    while todo != {}
      invariant todo <= update.entries.Keys
      invariant merged.entries.Keys == base.entries.Keys + (update.entries.Keys - todo)
      invariant forall k | k in merged.entries ::
        merged.entries[k] == if k in todo then base.entries[k] else MergedAt(base, update, k)
    {
      var k :| k in todo;
      var v := update.entries[k];
      if v.Dict? && k in merged.entries && merged.entries[k].Dict? {
        var sub := DeepUpdate(merged.entries[k], v);
        merged := Dict(merged.entries[k := sub]);
      } else {
        merged := Dict(merged.entries[k := v]);
      }
      todo := todo - {k};
    }
    assert merged.entries == Merge(base, update).entries;
  }

  // ---------------------------------------------------------------- what a layer says about a path

  /** `Blocked`: a strict prefix of the path holds a scalar, so the path itself is absent. */
  datatype Verdict = Silent | Blocked | Scalar(value: Value) | Table

  function Look(t: Tree, path: Path): Verdict
    requires path != []
    decreases |path|
  {
    if path[0] !in t.entries then Silent
    else
      var v := t.entries[path[0]];
      if |path| == 1 then (if v.Dict? then Table else Scalar(v))
      else if v.Dict? then Look(v, path[1..])
      else Blocked
  }

  /** Silent and blocked both mean that nothing is there. */
  function Presence(v: Verdict): Verdict {
    if v == Blocked then Silent else v
  }

  function Find(v: Value, path: Path): Option<Value>
    decreases |path|
  {
    if path == [] then Some(v)
    else if v.Dict? && path[0] in v.entries then Find(v.entries[path[0]], path[1..])
    else None
  }

  lemma {:induction false} LookIsFind(t: Tree, path: Path)
    requires path != []
    ensures match Presence(Look(t, path))
            case Silent => Find(t, path) == None
            case Blocked => false
            case Scalar(v) => Find(t, path) == Some(v) && !v.Dict?
            case Table => Find(t, path).Some? && Find(t, path).value.Dict?
    decreases |path|
  {
    if path[0] in t.entries && |path| > 1 && t.entries[path[0]].Dict? {
      LookIsFind(t.entries[path[0]], path[1..]);
    } else if path[0] in t.entries && |path| == 1 {
      assert path[1..] == [];
    }
  }

  /** An update that is not silent decides; otherwise the base does, a blocked path at most turning silent. */
  lemma {:induction false} MergeLook(base: Tree, update: Tree, path: Path)
    requires path != []
    ensures Look(update, path) != Silent ==> Look(Merge(base, update), path) == Look(update, path)
    ensures Look(update, path) == Silent ==> Presence(Look(Merge(base, update), path)) == Presence(Look(base, path))
    decreases |path|
  {
    var k := path[0];
    if k in update.entries && k in base.entries && update.entries[k].Dict? && base.entries[k].Dict? && |path| > 1 {
      MergeLook(base.entries[k], update.entries[k], path[1..]);
    }
  }

  // ---------------------------------------------------------------- the lookup law

  /** `_merge_configs` over any number of layers, lowest first. */
  function MergeAll(layers: seq<Tree>): Tree {
    if layers == [] then EMPTY else Merge(MergeAll(layers[..|layers| - 1]), layers[|layers| - 1])
  }

  /** The verdict of the highest layer that is not silent. */
  function Decider(layers: seq<Tree>, path: Path): Verdict
    requires path != []
  {
    if layers == [] then Silent
    else if Look(layers[|layers| - 1], path) != Silent then Look(layers[|layers| - 1], path)
    else Decider(layers[..|layers| - 1], path)
  }

  /** What is at a path is decided by the first layer, from the overrides down, that is not silent on it. */
  lemma {:induction false} LookupLaw(layers: seq<Tree>, path: Path)
    requires path != []
    ensures Presence(Look(MergeAll(layers), path)) == Presence(Decider(layers, path))
  {
    if layers != [] {
      LookupLaw(layers[..|layers| - 1], path);
      MergeLook(MergeAll(layers[..|layers| - 1]), layers[|layers| - 1], path);
    }
  }

  /** Merging associates exactly where no scalar between two dictionaries hides something of the lowest one. */
  ghost predicate Associates(a: Tree, b: Tree, c: Tree)
    decreases c
  {
    forall k | k in a.entries && k in b.entries && k in c.entries && a.entries[k].Dict? && c.entries[k].Dict? ::
      if b.entries[k].Dict? then Associates(a.entries[k], b.entries[k], c.entries[k])
      else Merge(a.entries[k], c.entries[k]) == c.entries[k]
  }

  lemma {:induction false} MergeAssociatesIff(a: Tree, b: Tree, c: Tree)
    ensures Merge(Merge(a, b), c) == Merge(a, Merge(b, c)) <==> Associates(a, b, c)
    decreases c, 1
  {
    var left, right := Merge(Merge(a, b), c), Merge(a, Merge(b, c));
    assert left.entries.Keys == right.entries.Keys;
    forall k | k in left.entries ensures left.entries[k] == right.entries[k] <==> AssociatesAt(a, b, c, k) {
      AssociatesAtKey(a, b, c, k);
    }
    assert left == right <==> forall k | k in left.entries :: left.entries[k] == right.entries[k];
    if forall k | k in left.entries :: AssociatesAt(a, b, c, k) {
      forall k | k in a.entries && k in b.entries && k in c.entries && a.entries[k].Dict? && c.entries[k].Dict?
        ensures if b.entries[k].Dict? then Associates(a.entries[k], b.entries[k], c.entries[k])
                else Merge(a.entries[k], c.entries[k]) == c.entries[k]
      {
        assert AssociatesAt(a, b, c, k);
      }
    }
  }

  lemma {:induction false} AssociatesAtKey(a: Tree, b: Tree, c: Tree, k: string)
    requires k in a.entries || k in b.entries || k in c.entries
    ensures MergedAt(Merge(a, b), c, k) == MergedAt(a, Merge(b, c), k) <==> AssociatesAt(a, b, c, k)
    decreases c, 0
  {
    if k in a.entries || k in b.entries {
      assert Merge(a, b).entries[k] == MergedAt(a, b, k);
    }
    if k in b.entries || k in c.entries {
      assert Merge(b, c).entries[k] == MergedAt(b, c, k);
    }
    if k in a.entries && k in b.entries && k in c.entries
       && a.entries[k].Dict? && b.entries[k].Dict? && c.entries[k].Dict? {
      MergeAssociatesIff(a.entries[k], b.entries[k], c.entries[k]);
    }
  }

  ghost predicate AssociatesAt(a: Tree, b: Tree, c: Tree, k: string) {
    k in a.entries && k in b.entries && k in c.entries && a.entries[k].Dict? && c.entries[k].Dict? ==>
      if b.entries[k].Dict? then Associates(a.entries[k], b.entries[k], c.entries[k])
      else Merge(a.entries[k], c.entries[k]) == c.entries[k]
  }

  function Only(k: string, v: Value): Tree {
    Dict(map[k := v])
  }

  lemma ScalarBetween(k: string, x: Tree, scalar: Value, y: Tree)
    requires !scalar.Dict?
    ensures Merge(Merge(Only(k, x), Only(k, scalar)), Only(k, y)).entries[k] == y
    ensures Merge(Only(k, x), Merge(Only(k, scalar), Only(k, y))).entries[k] == Merge(x, y)
  {
    assert Merge(Only(k, x), Only(k, scalar)).entries[k] == MergedAt(Only(k, x), Only(k, scalar), k);
    assert Merge(Only(k, scalar), Only(k, y)).entries[k] == MergedAt(Only(k, scalar), Only(k, y), k);
  }

  /** With the database host below, the whole database switched off above it and a port on top, the order of merging decides about the host. */
  lemma ScalarBetweenHides()
    ensures var a, b, c := Only("db", Only("host", Leaf("h"))), Only("db", Leaf("off")), Only("db", Only("port", Leaf("1")));
      Find(Merge(Merge(a, b), c), ["db", "host"]) == None && Find(Merge(a, Merge(b, c)), ["db", "host"]) == Some(Leaf("h"))
  {
    var x, y := Only("host", Leaf("h")), Only("port", Leaf("1"));
    ScalarBetween("db", x, Leaf("off"), y);
    assert Merge(x, y).entries["host"] == MergedAt(x, y, "host");
    FindTwo(Merge(Merge(Only("db", x), Only("db", Leaf("off"))), Only("db", y)), "db", "host");
    FindTwo(Merge(Only("db", x), Merge(Only("db", Leaf("off")), Only("db", y))), "db", "host");
  }

  lemma FindTwo(t: Tree, k: string, l: string)
    requires k in t.entries && t.entries[k].Dict?
    ensures Find(t, [k, l]) == if l in t.entries[k].entries then Some(t.entries[k].entries[l]) else None
  {
    assert [k, l][1..] == [l] && [l][1..] == [];
    assert Find(t, [k, l]) == Find(t.entries[k], [l]);
    if l in t.entries[k].entries {
      assert Find(t.entries[k], [l]) == Find(t.entries[k].entries[l], []);
    }
  }

  // ---------------------------------------------------------------- dotted lookup

  /** The loop of `get`: a missing key continues with the default. */
  function Walk(v: Value, keys: Path, default: Value): Value
    decreases |keys|
  {
    if keys == [] then (if v == Null then default else v)
    else if !v.Dict? then default
    else Walk(if keys[0] in v.entries then v.entries[keys[0]] else default, keys[1..], default)
  }

  /** What a lookup should give: the value found, or the default for nothing and for None. */
  function OrDefault(found: Option<Value>, default: Value): Value {
    if found.Some? && found.value != Null then found.value else default
  }

  /** The position of the first key that is missing in a dictionary, if the walk gets to one. */
  function MissingAt(v: Value, keys: Path): (j: Option<nat>)
    ensures j.Some? ==> j.value < |keys|
    decreases |keys|
  {
    if keys == [] || !v.Dict? then None
    else if keys[0] !in v.entries then Some(0)
    else match MissingAt(v.entries[keys[0]], keys[1..])
         case Some(j) => Some(j + 1)
         case None => None
  }

  lemma {:induction false} WalkCases(v: Value, keys: Path, default: Value)
    ensures match MissingAt(v, keys)
            case None => Walk(v, keys, default) == OrDefault(Find(v, keys), default)
            case Some(j) => j < |keys| && Find(v, keys) == None && Walk(v, keys, default) == Walk(default, keys[j + 1..], default)
    decreases |keys|
  {
    if keys != [] && v.Dict? && keys[0] in v.entries {
      WalkCases(v.entries[keys[0]], keys[1..], default);
      var j := MissingAt(v.entries[keys[0]], keys[1..]);
      if j.Some? {
        assert keys[1..][j.value + 1..] == keys[j.value + 1 + 1..];
      }
    }
  }

  /** The keys that are left after the last missing one, and are followed in the default to the end. */
  function LeftOver(v: Value, keys: Path, default: Value): Option<Path>
    decreases |keys|
  {
    match MissingAt(v, keys)
    case None => None
    case Some(j) =>
      match LeftOver(default, keys[j + 1..], default)
      case None => Some(keys[j + 1..])
      case Some(rest) => Some(rest)
  }

  /** After the last missing key the walk is a plain lookup in the default. */
  lemma {:induction false} WalkFromLast(v: Value, keys: Path, default: Value)
    ensures match LeftOver(v, keys, default)
            case None => Walk(v, keys, default) == OrDefault(Find(v, keys), default)
            case Some(rest) => Find(v, keys) == None && Walk(v, keys, default) == OrDefault(Find(default, rest), default)
    decreases |keys|
  {
    WalkCases(v, keys, default);
    match MissingAt(v, keys) {
      case None =>
      case Some(j) => WalkFromLast(default, keys[j + 1..], default);
    }
  }

  lemma {:induction false} FindOnward(v: Value, path: Path, more: Path)
    requires Find(v, path).Some?
    ensures Find(v, path + more) == Find(Find(v, path).value, more)
    decreases |path|
  {
    if path == [] {
      assert path + more == more;
    } else {
      assert (path + more)[1..] == path[1..] + more;
      FindOnward(v.entries[path[0]], path[1..], more);
    }
  }

  /** No value lies below itself: the path would go round for ever. */
  lemma {:induction false} NotBelowItself(v: Value, path: Path)
    requires path != []
    ensures Find(v, path) != Some(v)
    decreases v
  {
    if Find(v, path) == Some(v) {
      var below := v.entries[path[0]];
      FindOnward(below, path[1..], [path[0]]);
      assert [path[0]][1..] == [];
      NotBelowItself(below, path[1..] + [path[0]]);
    }
  }

  /**
   `get` gives the value found, or the default for nothing and None, exactly when no key is missing
   on the way, or after the last missing one no keys are left, or those left lead to nothing or to
   None in the default.
   */
  lemma GetIsLookupIff(v: Value, keys: Path, default: Value)
    ensures Walk(v, keys, default) == OrDefault(Find(v, keys), default) <==>
              match LeftOver(v, keys, default)
              case None => true
              case Some(rest) => rest == [] || Find(default, rest) == None || Find(default, rest) == Some(Null)
  {
    WalkFromLast(v, keys, default);
    var rest := LeftOver(v, keys, default);
    if rest.Some? && rest.value != [] {
      NotBelowItself(default, rest.value);
    }
  }

  /** With a default that is not a dictionary it always does. */
  lemma GetIsLookup(v: Value, keys: Path, default: Value)
    requires !default.Dict?
    ensures Walk(v, keys, default) == OrDefault(Find(v, keys), default)
  {
    WalkCases(v, keys, default);
  }

  /** A dictionary-valued default is walked into: `get("a.b", {"b": "x"})` gives `"x"` from an empty configuration. */
  lemma GetWalksIntoDefault()
    ensures Walk(EMPTY, ["a", "b"], Dict(map["b" := Leaf("x")])) == Leaf("x")
  {
    var default := Dict(map["b" := Leaf("x")]);
    assert ["a", "b"][1..] == ["b"] && ["b"][1..] == [];
    assert Walk(default, ["b"], default) == Walk(Leaf("x"), [], default);
  }

  // ---------------------------------------------------------------- dotted assignment

  /** `_set_deep`; nothing when a scalar on the way makes it raise. */
  function SetDeep(t: Tree, path: Path, v: Value): Option<Tree>
    requires path != []
    decreases |path|
  {
    if |path| == 1 then Some(Dict(t.entries[path[0] := v]))
    else
      var sub := if path[0] in t.entries then t.entries[path[0]] else EMPTY;
      if !sub.Dict? then None
      else match SetDeep(sub, path[1..], v)
           case None => None
           case Some(s) => Some(Dict(t.entries[path[0] := s]))
  }

  /** It raises exactly when the path is blocked. */
  lemma {:induction false} SetRaisesIff(t: Tree, path: Path, v: Value)
    requires path != []
    ensures SetDeep(t, path, v).None? <==> Look(t, path) == Blocked
    decreases |path|
  {
    if |path| > 1 {
      if path[0] !in t.entries {
        SetRaisesIff(EMPTY, path[1..], v);
      } else if t.entries[path[0]].Dict? {
        SetRaisesIff(t.entries[path[0]], path[1..], v);
      }
    }
  }

  lemma {:induction false} SetThenFind(t: Tree, path: Path, v: Value)
    requires path != [] && SetDeep(t, path, v).Some?
    ensures Find(SetDeep(t, path, v).value, path) == Some(v)
    ensures Look(SetDeep(t, path, v).value, path) == if v.Dict? then Table else Scalar(v)
    decreases |path|
  {
    if |path| == 1 {
      assert path[1..] == [];
    } else {
      SetThenFind(if path[0] in t.entries then t.entries[path[0]] else EMPTY, path[1..], v);
    }
  }

  /** Neither path is a prefix of the other. */
  predicate Incomparable(p: Path, q: Path) {
    !(p <= q) && !(q <= p)
  }

  lemma IncomparableTails(p: Path, q: Path)
    requires p != [] && q != [] && p[0] == q[0]
    ensures Incomparable(p, q) <==> Incomparable(p[1..], q[1..])
  {
    assert p == [p[0]] + p[1..] && q == [q[0]] + q[1..];
  }

  /** Whatever it is merged over, an assignment changes nothing at an incomparable path. */
  lemma {:induction false} SetLeavesOthers(base: Tree, t: Tree, path: Path, v: Value, other: Path)
    requires path != [] && Incomparable(path, other) && SetDeep(t, path, v).Some?
    ensures Find(Merge(base, SetDeep(t, path, v).value), other) == Find(Merge(base, t), other)
    decreases |path|
  {
    var after := SetDeep(t, path, v).value;
    var k := path[0];
    if other[0] != k {
      OtherKey(base, t, after, k, other[0]);
    } else {
      IncomparableTails(path, other);
      var sub := if k in t.entries then t.entries[k] else EMPTY;
      var below := if k in base.entries && base.entries[k].Dict? then base.entries[k] else EMPTY;
      SetLeavesOthers(below, sub, path[1..], v, other[1..]);
      MergeNothing(below);
      MergeNothing(sub);
      MergeNothing(SetDeep(sub, path[1..], v).value);
      assert Merge(base, after).entries[k] == Merge(below, SetDeep(sub, path[1..], v).value);
      SameKey(base, t, k, below, sub, other[1..]);
    }
  }

  /** Nor does it change what is said about an incomparable path. */
  lemma {:induction false} SetKeepsLook(t: Tree, path: Path, v: Value, other: Path)
    requires path != [] && Incomparable(path, other) && SetDeep(t, path, v).Some?
    ensures Look(SetDeep(t, path, v).value, other) == Look(t, other)
    decreases |path|
  {
    if other[0] == path[0] {
      IncomparableTails(path, other);
      SetKeepsLook(if path[0] in t.entries then t.entries[path[0]] else EMPTY, path[1..], v, other[1..]);
    }
  }

  lemma OtherKey(base: Tree, t: Tree, after: Tree, k: string, other: string)
    requires other != k && (other in t.entries <==> other in after.entries)
    requires other in t.entries ==> after.entries[other] == t.entries[other]
    ensures other in Merge(base, t).entries <==> other in Merge(base, after).entries
    ensures other in Merge(base, t).entries ==> Merge(base, after).entries[other] == Merge(base, t).entries[other]
  {
    if other in Merge(base, t).entries {
      assert Merge(base, t).entries[other] == MergedAt(base, t, other);
      assert Merge(base, after).entries[other] == MergedAt(base, after, other);
    }
  }

  lemma SameKey(base: Tree, t: Tree, k: string, below: Tree, sub: Tree, rest: Path)
    requires below == if k in base.entries && base.entries[k].Dict? then base.entries[k] else EMPTY
    requires sub == if k in t.entries then t.entries[k] else EMPTY
    requires rest != []
    ensures Find(Merge(base, t), [k] + rest) == Find(Merge(below, sub), rest)
  {
    assert ([k] + rest)[1..] == rest;
    MergeNothing(below);
    MergeNothing(sub);
    if k in Merge(base, t).entries {
      assert Merge(base, t).entries[k] == MergedAt(base, t, k);
    }
  }

  lemma FourLayers(a: Tree, b: Tree, c: Tree, d: Tree)
    ensures MergeAll([a, b, c, d]) == Merge(Merge(Merge(a, b), c), d)
  {
    assert [a, b, c, d][..3] == [a, b, c] && [a, b, c][..2] == [a, b] && [a, b][..1] == [a] && [a][..0] == [];
    MergeNothing(a);
    assert MergeAll([a]) == Merge(MergeAll([a][..0]), a);
    assert MergeAll([a, b]) == Merge(a, b);
    assert MergeAll([a, b, c]) == Merge(Merge(a, b), c);
  }

  lemma AnswerOfLayers(layers: seq<Tree>, keys: Path, default: Value)
    requires keys != []
    ensures !default.Dict? ==>
      match Presence(Decider(layers, keys))
      case Silent => Walk(MergeAll(layers), keys, default) == default
      case Scalar(v) => Walk(MergeAll(layers), keys, default) == if v == Null then default else v
      case Table => Some(Walk(MergeAll(layers), keys, default)) == Find(MergeAll(layers), keys) && Walk(MergeAll(layers), keys, default).Dict?
      case Blocked => false
  {
    if !default.Dict? {
      GetIsLookup(MergeAll(layers), keys, default);
      LookupLaw(layers, keys);
      LookIsFind(MergeAll(layers), keys);
    }
  }
}
