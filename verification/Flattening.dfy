/** Flattening a tree to dotted keys, and setting every key of it again. */
module Flattening {
  import opened Prelude
  import opened Texts
  import opened ConfigTrees

  ghost predicate IsLeaf(t: Tree, path: Path, x: Value) {
    path != [] && Find(t, path) == Some(x) && !x.Dict?
  }

  /** No key contains a dot and no dictionary below the root is empty. */
  ghost predicate Clean(t: Tree) {
    forall k | k in t.entries :: '.' !in k && (t.entries[k].Dict? ==> t.entries[k] != EMPTY && Clean(t.entries[k]))
  }

  // ---------------------------------------------------------------- leaves

  /** A leaf is an entry of the root, or a leaf of the dictionary under its first key. */
  lemma LeafHead(t: Tree, p: Path, x: Value)
    requires IsLeaf(t, p, x)
    ensures p[0] in t.entries && (|p| > 1 <==> t.entries[p[0]].Dict?)
    ensures |p| == 1 ==> p == [p[0]] && t.entries[p[0]] == x
    ensures |p| > 1 ==> IsLeaf(t.entries[p[0]], p[1..], x)
  {
    var v := t.entries[p[0]];
    assert Find(v, p[1..]) == Some(x);
    if |p| == 1 {
      assert p[1..] == [];
    }
  }

  lemma FindUnder(t: Tree, k: string, rest: Path)
    ensures Find(t, [k] + rest) == if k in t.entries then Find(t.entries[k], rest) else None
  {
    assert ([k] + rest)[1..] == rest;
  }

  /** Below a scalar there is nothing. */
  lemma {:induction false} NothingBelowScalar(v: Value, path: Path, other: Path)
    requires path < other && Find(v, path).Some? && !Find(v, path).value.Dict?
    ensures Find(v, other) == None
    decreases |path|
  {
    if path != [] {
      assert path[0] == other[0] && path[1..] < other[1..];
      NothingBelowScalar(v.entries[path[0]], path[1..], other[1..]);
    }
  }

  /** Two leaves of a tree lie at incomparable paths. */
  lemma LeavesIncomparable(t: Tree, p: Path, x: Value, q: Path, y: Value)
    requires IsLeaf(t, p, x) && IsLeaf(t, q, y) && p != q
    ensures Incomparable(p, q)
  {
    if p < q {
      NothingBelowScalar(t, p, q);
    } else if q < p {
      NothingBelowScalar(t, q, p);
    }
  }

  lemma {:induction false} CleanHasLeaf(t: Tree) returns (p: Path, x: Value)
    requires Clean(t) && t != EMPTY
    ensures IsLeaf(t, p, x)
    decreases t
  {
    var k :| k in t.entries;
    var v := t.entries[k];
    if v.Dict? {
      p, x := CleanHasLeaf(v);
      FindUnder(t, k, p);
      p := [k] + p;
    } else {
      p, x := [k], v;
      assert [k][1..] == [];
    }
  }

  /** A leaf under a key is a leaf below it. */
  lemma LeafUnder(t: Tree, k: string, p: Path, x: Value)
    requires k in t.entries && t.entries[k].Dict? && p != []
    ensures IsLeaf(t, [k] + p, x) <==> IsLeaf(t.entries[k], p, x)
  {
    FindUnder(t, k, p);
  }

  lemma {:induction false} CleanLeafPath(t: Tree, p: Path, x: Value)
    requires Clean(t) && IsLeaf(t, p, x)
    ensures forall k | k in p :: '.' !in k
    decreases |p|
  {
    LeafHead(t, p, x);
    if |p| > 1 {
      CleanLeafPath(t.entries[p[0]], p[1..], x);
      assert forall k | k in p :: k == p[0] || k in p[1..];
    }
  }

  // ---------------------------------------------------------------- setting the leaves of a tree

  /** Setting a leaf of `d` does not change what merging `d` gives. */
  lemma {:induction false} SetThenMerge(t: Tree, d: Tree, p: Path, x: Value)
    requires IsLeaf(d, p, x) && SetDeep(t, p, x).Some?
    ensures Merge(SetDeep(t, p, x).value, d) == Merge(t, d)
    decreases |p|
  {
    var after, k := SetDeep(t, p, x).value, p[0];
    LeafHead(d, p, x);
    if |p| > 1 {
      var sub := if k in t.entries then t.entries[k] else EMPTY;
      SetThenMerge(sub, d.entries[k], p[1..], x);
      MergeNothing(d.entries[k]);
    }
    forall j | j in Merge(t, d).entries ensures MergedAt(after, d, j) == MergedAt(t, d, j) {
    }
    assert Merge(after, d).entries == Merge(t, d).entries;
  }

  /** A tree that already has every leaf of a clean one is not changed by merging it. */
  lemma {:induction false} MergeOfSubtree(t: Tree, d: Tree)
    requires Clean(d) && forall p, x | IsLeaf(d, p, x) :: IsLeaf(t, p, x)
    ensures Merge(t, d) == t
    decreases d
  {
    forall k | k in d.entries ensures k in t.entries && MergedAt(t, d, k) == t.entries[k] {
      MergeOfKey(t, d, k);
    }
    assert Merge(t, d).entries == t.entries;
  }

  lemma {:induction false} MergeOfKey(t: Tree, d: Tree, k: string)
    requires Clean(d) && k in d.entries && forall p, x | IsLeaf(d, p, x) :: IsLeaf(t, p, x)
    ensures k in t.entries && MergedAt(t, d, k) == t.entries[k]
    decreases d, 0
  {
    var v := d.entries[k];
    if v.Dict? {
      var p, x := CleanHasLeaf(v);
      LeafUnder(d, k, p, x);
      FindUnder(t, k, p);
      forall q, y | IsLeaf(v, q, y) ensures IsLeaf(t.entries[k], q, y) {
        LeafUnder(d, k, q, y);
        FindUnder(t, k, q);
      }
      MergeOfSubtree(t.entries[k], v);
    } else {
      FindUnder(d, k, []);
      FindUnder(t, k, []);
      assert IsLeaf(d, [k] + [], v);
    }
  }

  /** Setting leaves with dot-free keys keeps a tree clean. */
  lemma {:induction false} SetKeepsClean(t: Tree, p: Path, x: Value)
    requires Clean(t) && p != [] && !x.Dict? && SetDeep(t, p, x).Some? && forall k | k in p :: '.' !in k
    ensures Clean(SetDeep(t, p, x).value) && SetDeep(t, p, x).value != EMPTY
    decreases |p|
  {
    var after, k := SetDeep(t, p, x).value, p[0];
    assert k in after.entries;
    if |p| > 1 {
      SetKeepsClean(if k in t.entries then t.entries[k] else EMPTY, p[1..], x);
    }
  }

  /** A blocked path has a scalar above it. */
  lemma BlockedByLeaf(t: Tree, p: Path) returns (q: Path, x: Value)
    requires p != [] && Look(t, p) == Blocked
    ensures IsLeaf(t, q, x) && q < p
    decreases |p|
  {
    if t.entries[p[0]].Dict? {
      q, x := BlockedByLeaf(t.entries[p[0]], p[1..]);
      LeafUnder(t, p[0], q, x);
      q := [p[0]] + q;
      assert p == [p[0]] + p[1..];
    } else {
      q, x := [p[0]], t.entries[p[0]];
      assert [p[0]][1..] == [];
    }
  }

  lemma {:induction false} LeafBlocks(t: Tree, q: Path, x: Value, p: Path)
    requires IsLeaf(t, q, x) && q < p
    ensures Look(t, p) == Blocked
    decreases |q|
  {
    LeafHead(t, q, x);
    assert q[0] == p[0];
    if |q| > 1 {
      assert q[1..] < p[1..];
      LeafBlocks(t.entries[q[0]], q[1..], x, p[1..]);
    }
  }

  /** So an assignment is refused exactly when a scalar lies at a strict prefix of its path. */
  lemma RefusedIffScalarAbove(t: Tree, p: Path, v: Value)
    requires p != []
    ensures SetDeep(t, p, v).None? <==> exists q, x :: IsLeaf(t, q, x) && q < p
  {
    SetRaisesIff(t, p, v);
    if Look(t, p) == Blocked {
      var q, x := BlockedByLeaf(t, p);
    }
    forall q, x | IsLeaf(t, q, x) && q < p ensures Look(t, p) == Blocked {
      LeafBlocks(t, q, x, p);
    }
  }

  // ---------------------------------------------------------------- flattening

  /** Every key is the dotted path of a leaf, with its value. */
  ghost predicate KeysAreLeaves(t: Tree, prefix: string, flat: map<string, Value>) {
    forall key | key in flat :: exists p :: IsLeaf(t, p, flat[key]) && key == prefix + Join(p, '.')
  }

  /** Every leaf has its dotted path among the keys. */
  ghost predicate LeavesAreKeys(t: Tree, prefix: string, flat: map<string, Value>) {
    forall p, x | IsLeaf(t, p, x) :: prefix + Join(p, '.') in flat
  }

  method FlattenDict(t: Tree, prefix: string) returns (flat: map<string, Value>)
    ensures KeysAreLeaves(t, prefix, flat) && LeavesAreKeys(t, prefix, flat)
    decreases t
  {
    flat := map[];
    var todo := t.entries.Keys;
    while todo != {}
      invariant todo <= t.entries.Keys
      invariant KeysAreLeaves(t, prefix, flat)
      invariant forall p, x | IsLeaf(t, p, x) && p[0] !in todo :: prefix + Join(p, '.') in flat
    {
      var k :| k in todo;
      var v := t.entries[k];
      var key := prefix + k;
      ghost var before := flat;
      if v.Dict? {
        var sub := FlattenDict(v, key + ".");
        flat := flat + sub;
        KeysBelow(t, k, prefix, sub);
      } else {
        flat := flat[key := v];
        KeyOfScalar(t, k, prefix);
      }
      todo := todo - {k};
    }
  }

  lemma KeysBelow(t: Tree, k: string, prefix: string, sub: map<string, Value>)
    requires k in t.entries && t.entries[k].Dict? && KeysAreLeaves(t.entries[k], prefix + k + ".", sub) && LeavesAreKeys(t.entries[k], prefix + k + ".", sub)
    ensures KeysAreLeaves(t, prefix, sub)
    ensures forall p, x | IsLeaf(t, p, x) && p[0] == k :: prefix + Join(p, '.') in sub
  {
    forall key | key in sub ensures exists p :: IsLeaf(t, p, sub[key]) && key == prefix + Join(p, '.') {
      var p :| IsLeaf(t.entries[k], p, sub[key]) && key == prefix + k + "." + Join(p, '.');
      LeafUnder(t, k, p, sub[key]);
      JoinUnder(prefix, k, p);
    }
    forall p, x | IsLeaf(t, p, x) && p[0] == k ensures prefix + Join(p, '.') in sub {
      assert p == [k] + p[1..];
      LeafHead(t, p, x);
      LeafUnder(t, k, p[1..], x);
      JoinUnder(prefix, k, p[1..]);
    }
  }

  lemma JoinUnder(prefix: string, k: string, p: Path)
    requires p != []
    ensures prefix + k + "." + Join(p, '.') == prefix + Join([k] + p, '.')
  {
    assert ([k] + p)[1..] == p;
    assert Join([k] + p, '.') == k + ['.'] + Join(p, '.');
  }

  lemma KeyOfScalar(t: Tree, k: string, prefix: string)
    requires k in t.entries && !t.entries[k].Dict?
    ensures IsLeaf(t, [k], t.entries[k]) && prefix + k == prefix + Join([k], '.')
    ensures forall p, x | IsLeaf(t, p, x) && p[0] == k :: p == [k]
  {
    assert [k][1..] == [];
    forall p, x | IsLeaf(t, p, x) && p[0] == k ensures p == [k] {
      LeafHead(t, p, x);
    }
  }

  /** For a clean tree every key splits into the path of a leaf. */
  ghost predicate KeysSplit(t: Tree, flat: map<string, Value>) {
    forall key | key in flat :: IsLeaf(t, Split(key, '.'), flat[key])
  }

  /** And every leaf is found under some key. */
  ghost predicate LeavesJoin(t: Tree, flat: map<string, Value>) {
    forall p, x | IsLeaf(t, p, x) :: Join(p, '.') in flat && Split(Join(p, '.'), '.') == p
  }

  lemma PathOfKey(t: Tree, p: Path, x: Value)
    requires Clean(t) && IsLeaf(t, p, x)
    ensures Split(Join(p, '.'), '.') == p && "" + Join(p, '.') == Join(p, '.')
  {
    CleanLeafPath(t, p, x);
    SplitJoin(p, '.');
  }

  lemma CleanKeysSplit(t: Tree, flat: map<string, Value>)
    requires Clean(t) && KeysAreLeaves(t, "", flat)
    ensures KeysSplit(t, flat)
  {
    forall key | key in flat ensures IsLeaf(t, Split(key, '.'), flat[key]) {
      var p :| IsLeaf(t, p, flat[key]) && key == "" + Join(p, '.');
      PathOfKey(t, p, flat[key]);
    }
  }

  lemma CleanLeavesJoin(t: Tree, flat: map<string, Value>)
    requires Clean(t) && LeavesAreKeys(t, "", flat)
    ensures LeavesJoin(t, flat)
  {
    forall p, x | IsLeaf(t, p, x) ensures Join(p, '.') in flat && Split(Join(p, '.'), '.') == p {
      PathOfKey(t, p, x);
    }
  }

  /** Flattening from the root, said of a clean tree in terms of paths. */
  method Flatten(t: Tree) returns (flat: map<string, Value>)
    ensures forall key | key in flat :: !flat[key].Dict?
    ensures Clean(t) ==> KeysSplit(t, flat)
    ensures Clean(t) ==> LeavesJoin(t, flat)
  {
    flat := FlattenDict(t, "");
    ghost var clean := Clean(t);
    if clean {
      CleanKeysSplit(t, flat);
      CleanLeavesJoin(t, flat);
    }
  }

  // ---------------------------------------------------------------- under a namespace

  /** The tree with `d` at `prefix` and nothing else. */
  function Nest(prefix: Path, d: Tree): Tree
    decreases |prefix|
  {
    if prefix == [] then d else Dict(map[prefix[0] := Nest(prefix[1..], d)])
  }

  lemma {:induction false} NestFinds(prefix: Path, d: Tree, p: Path)
    ensures Find(Nest(prefix, d), prefix + p) == Find(d, p)
    decreases |prefix|
  {
    if prefix == [] {
      assert [] + p == p;
    } else {
      assert (prefix + p)[1..] == prefix[1..] + p;
      NestFinds(prefix[1..], d, p);
    }
  }

  lemma {:induction false} NestClean(prefix: Path, d: Tree)
    requires Clean(d) && d != EMPTY && forall k | k in prefix :: '.' !in k
    ensures Clean(Nest(prefix, d)) && Nest(prefix, d) != EMPTY
    decreases |prefix|
  {
    if prefix != [] {
      NestClean(prefix[1..], d);
      assert prefix[0] in Nest(prefix, d).entries;
    }
  }

  lemma {:induction false} NestLeafPath(prefix: Path, d: Tree, q: Path, x: Value)
    requires IsLeaf(Nest(prefix, d), q, x)
    ensures prefix < q && IsLeaf(d, q[|prefix|..], x)
    decreases |prefix|
  {
    if prefix != [] {
      LeafHead(Nest(prefix, d), q, x);
      NestLeafPath(prefix[1..], d, q[1..], x);
      assert prefix == [prefix[0]] + prefix[1..] && q == [q[0]] + q[1..];
      assert q[1..][|prefix| - 1..] == q[|prefix|..];
    }
  }

  lemma NestLeaf(prefix: Path, d: Tree, p: Path, x: Value)
    requires IsLeaf(d, p, x)
    ensures IsLeaf(Nest(prefix, d), prefix + p, x)
  {
    NestFinds(prefix, d, p);
  }

  lemma NestedIncomparable(prefix: Path, p: Path, q: Path)
    requires Incomparable(p, q)
    ensures Incomparable(prefix + p, prefix + q)
  {
    assert (prefix + p)[|prefix|..] == p && (prefix + q)[|prefix|..] == q;
  }

  lemma OutsideIncomparable(prefix: Path, p: Path, other: Path)
    ensures prefix + p <= other ==> prefix <= other
    ensures other <= prefix + p ==> other <= prefix || prefix <= other
    ensures Incomparable(prefix, other) ==> Incomparable(prefix + p, other)
  {
    assert (prefix + p)[..|prefix|] == prefix;
    if prefix + p <= other {
      assert other[..|prefix + p|][..|prefix|] == other[..|prefix|];
    }
    if other <= prefix + p && |other| <= |prefix| {
      assert other == prefix[..|other|];
    }
    if other <= prefix + p && |other| > |prefix| {
      assert prefix == other[..|prefix|];
    }
  }

  // ---------------------------------------------------------------- setting every key again

  /** The leaves of `d` whose keys are `done` are set in `t`; the others are blocked as they were in `t0`. */
  ghost predicate Progress(t0: Tree, t: Tree, prefix: Path, d: Tree, done: set<string>)
    requires prefix != []
  {
    && Merge(t, Nest(prefix, d)) == Merge(t0, Nest(prefix, d))
    && forall p, x | IsLeaf(d, p, x) ::
         if Join(p, '.') in done then Find(t, prefix + p) == Some(x) && Look(t0, prefix + p) != Blocked
         else Look(t, prefix + p) == Blocked <==> Look(t0, prefix + p) == Blocked
  }

  lemma OtherLeafStays(t: Tree, prefix: Path, d: Tree, p: Path, x: Value, q: Path, y: Value)
    requires prefix != [] && IsLeaf(d, p, x) && IsLeaf(d, q, y) && p != q && SetDeep(t, prefix + p, x).Some?
    ensures Find(SetDeep(t, prefix + p, x).value, prefix + q) == Find(t, prefix + q)
    ensures Look(SetDeep(t, prefix + p, x).value, prefix + q) == Look(t, prefix + q)
  {
    LeavesIncomparable(d, p, x, q, y);
    NestedIncomparable(prefix, p, q);
    SetKeepsLook(t, prefix + p, x, prefix + q);
    SetLeavesOthers(EMPTY, t, prefix + p, x, prefix + q);
    MergeNothing(t);
    MergeNothing(SetDeep(t, prefix + p, x).value);
  }

  lemma ProgressStep(t0: Tree, t: Tree, prefix: Path, d: Tree, done: set<string>, key: string, x: Value)
    requires prefix != [] && Clean(d) && Progress(t0, t, prefix, d, done) && key !in done
    requires IsLeaf(d, Split(key, '.'), x) && SetDeep(t, prefix + Split(key, '.'), x).Some?
    ensures Progress(t0, SetDeep(t, prefix + Split(key, '.'), x).value, prefix, d, done + {key})
  {
    var p := Split(key, '.');
    var after := SetDeep(t, prefix + p, x).value;
    JoinSplit(key, '.');
    NestLeaf(prefix, d, p, x);
    SetThenMerge(t, Nest(prefix, d), prefix + p, x);
    SetThenFind(t, prefix + p, x);
    SetRaisesIff(t, prefix + p, x);
    forall q, y | IsLeaf(d, q, y)
      ensures if Join(q, '.') in done + {key} then Find(after, prefix + q) == Some(y) && Look(t0, prefix + q) != Blocked
              else Look(after, prefix + q) == Blocked <==> Look(t0, prefix + q) == Blocked
    {
      PathOfKey(d, q, y);
      if q != p {
        OtherLeafStays(t, prefix, d, p, x, q, y);
      }
    }
  }

  lemma ProgressEnds(t0: Tree, t: Tree, prefix: Path, d: Tree, flat: map<string, Value>)
    requires prefix != [] && Clean(d) && Progress(t0, t, prefix, d, flat.Keys) && forall k | k in prefix :: '.' !in k
    requires LeavesJoin(d, flat)
    ensures Unblocked(t0, prefix, d)
    ensures d != EMPTY ==> t == Merge(t0, Nest(prefix, d))
  {
    if d != EMPTY {
      NestClean(prefix, d);
      forall q, x | IsLeaf(Nest(prefix, d), q, x) ensures IsLeaf(t, q, x) {
        NestLeafPath(prefix, d, q, x);
        assert q == prefix + q[|prefix|..];
      }
      MergeOfSubtree(t, Nest(prefix, d));
    }
  }

  /** Into an empty tree a tree comes back as it was exactly when it is clean. */
  lemma RoundTripIff(t: Tree, prefix: Path, d: Tree)
    requires prefix != [] && d != EMPTY && Clean(t) && (Clean(d) ==> t == Merge(EMPTY, Nest(prefix, d)))
    ensures Find(t, prefix) == Some(d) <==> Clean(d)
  {
    MergeNothing(Nest(prefix, d));
    NestFinds(prefix, d, []);
    assert prefix + [] == prefix;
    if Find(t, prefix) == Some(d) {
      FoundIsClean(t, prefix);
    }
  }

  /** No leaf of `d`, put under `prefix`, has a scalar of `t` above it. */
  ghost predicate Unblocked(t: Tree, prefix: Path, d: Tree)
    requires prefix != []
  {
    forall p, x | IsLeaf(d, p, x) :: Look(t, prefix + p) != Blocked
  }

  /** Everything set so far, whatever tree the keys came from. */
  ghost predicate OnlyUnder(t0: Tree, t: Tree, prefix: Path) {
    && (t0 == EMPTY ==> Clean(t))
    && (forall other | Incomparable(prefix, other) :: Find(t, other) == Find(t0, other))
  }

  lemma StaysUnder(t0: Tree, t: Tree, prefix: Path, p: Path, x: Value)
    requires prefix != [] && (forall k | k in prefix + p :: '.' !in k) && !x.Dict?
    requires OnlyUnder(t0, t, prefix) && SetDeep(t, prefix + p, x).Some?
    ensures OnlyUnder(t0, SetDeep(t, prefix + p, x).value, prefix)
  {
    OutsideStays(t, prefix, p, x);
    if t0 == EMPTY {
      SetKeepsClean(t, prefix + p, x);
    }
  }

  lemma BlockedFromStart(t0: Tree, t: Tree, prefix: Path, d: Tree, done: set<string>, key: string, x: Value)
    requires prefix != [] && Progress(t0, t, prefix, d, done) && key !in done
    requires IsLeaf(d, Split(key, '.'), x) && Look(t, prefix + Split(key, '.')) == Blocked
    ensures !Unblocked(t0, prefix, d)
  {
    JoinSplit(key, '.');
  }

  lemma ProgressStarts(t0: Tree, prefix: Path, d: Tree)
    requires prefix != []
    ensures Progress(t0, t0, prefix, d, {})
  {
  }

  /** Setting every key of a flattened tree under a namespace, in whatever order the keys come. */
  method SetAll(t0: Tree, namespace: string, flat: map<string, Value>, ghost d: Tree) returns (t: Tree, ok: bool)
    requires forall key | key in flat :: !flat[key].Dict?
    requires Clean(d) ==> KeysSplit(d, flat)
    ensures OnlyUnder(t0, t, Split(namespace, '.'))
    ensures Clean(d) ==> if ok then Progress(t0, t, Split(namespace, '.'), d, flat.Keys) else !Unblocked(t0, Split(namespace, '.'), d)
  {
    t := t0;
    var todo := flat.Keys;
    ghost var clean, prefix := Clean(d), Split(namespace, '.');
    ProgressStarts(t0, prefix, d);
    assert flat.Keys - todo == {};
    while todo != {}
      invariant todo <= flat.Keys
      invariant clean ==> Progress(t0, t, prefix, d, flat.Keys - todo)
      invariant OnlyUnder(t0, t, prefix)
    {
      var key :| key in todo;
      var path := Split(namespace + ['.'] + key, '.');
      SplitConcat(namespace, key, '.');
      var next := SetDeep(t, path, flat[key]);
      SetRaisesIff(t, path, flat[key]);
      if next.None? {
        if clean {
          BlockedFromStart(t0, t, prefix, d, flat.Keys - todo, key, flat[key]);
        }
        return t, false;
      }
      if clean {
        ProgressStep(t0, t, prefix, d, flat.Keys - todo, key, flat[key]);
        assert flat.Keys - todo + {key} == flat.Keys - (todo - {key});
      }
      StaysUnder(t0, t, prefix, Split(key, '.'), flat[key]);
      t, todo := next.value, todo - {key};
    }
    assert flat.Keys - todo == flat.Keys;
    return t, true;
  }

  lemma OutsideStays(t: Tree, prefix: Path, p: Path, x: Value)
    requires prefix != [] && SetDeep(t, prefix + p, x).Some?
    ensures forall other | Incomparable(prefix, other) :: Find(SetDeep(t, prefix + p, x).value, other) == Find(t, other)
  {
    forall other | Incomparable(prefix, other) ensures Find(SetDeep(t, prefix + p, x).value, other) == Find(t, other) {
      OutsideIncomparable(prefix, p, other);
      SetLeavesOthers(EMPTY, t, prefix + p, x, other);
      MergeNothing(t);
      MergeNothing(SetDeep(t, prefix + p, x).value);
    }
  }

  /** What is found below in a clean tree is clean, and not an empty dictionary. */
  lemma {:induction false} FoundIsClean(t: Tree, p: Path)
    requires Clean(t) && p != [] && Find(t, p).Some? && Find(t, p).value.Dict?
    ensures Clean(Find(t, p).value) && Find(t, p).value != EMPTY
    decreases |p|
  {
    if |p| > 1 {
      assert Find(t, p) == Find(t.entries[p[0]], p[1..]);
      FoundIsClean(t.entries[p[0]], p[1..]);
    } else {
      assert p[1..] == [];
    }
  }
}
