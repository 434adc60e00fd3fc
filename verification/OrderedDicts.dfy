/** Python dictionaries with string keys, as sequences of pairs in insertion order. */
module OrderedDicts {
  import opened Prelude

  type Dict<+V> = seq<(string, V)>

  /** No key occurs twice. */
  ghost predicate Keyed<V>(d: Dict<V>) {
    forall i, j | 0 <= i < j < |d| :: d[i].0 != d[j].0
  }

  function Find<V>(d: Dict<V>, k: string): Option<V> {
    if d == [] then None else if d[0].0 == k then Some(d[0].1) else Find(d[1..], k)
  }

  lemma {:induction false} FindNone<V>(d: Dict<V>, k: string)
    ensures Find(d, k).None? <==> forall p | p in d :: p.0 != k
  {
    if d != [] {
      FindNone(d[1..], k);
      assert d[0] in d && forall p | p in d :: p == d[0] || p in d[1..];
    }
  }

  lemma {:induction false} FindIn<V>(d: Dict<V>, k: string)
    ensures Find(d, k).Some? ==> (k, Find(d, k).value) in d
  {
    if d != [] {
      FindIn(d[1..], k);
    }
  }

  /** The first key of a dictionary does not occur in the rest. */
  lemma HeadIsUnique<V>(d: Dict<V>)
    requires Keyed(d) && d != []
    ensures Keyed(d[1..]) && Find(d[1..], d[0].0).None?
    ensures forall p | p in d[1..] :: p.0 != d[0].0
  {
    forall p | p in d[1..] ensures p.0 != d[0].0 {
      var i :| 0 <= i < |d[1..]| && d[1..][i] == p;
      assert d[i + 1] == p;
    }
    FindNone(d[1..], d[0].0);
  }

  /** A key that is there keeps its place, a new one goes to the end. */
  function Put<V>(d: Dict<V>, k: string, v: V): (r: Dict<V>)
    ensures forall i | 0 <= i < |d| :: i < |r| && r[i].0 == d[i].0
    ensures |r| == if Find(d, k).Some? then |d| else |d| + 1
    ensures Find(d, k).None? ==> r == d + [(k, v)]
  {
    if d == [] then [(k, v)]
    else if d[0].0 == k then [(k, v)] + d[1..]
    else [d[0]] + Put(d[1..], k, v)
  }

  function Remove<V>(d: Dict<V>, k: string): (r: Dict<V>)
    ensures forall p | p in r :: p in d && p.0 != k
  {
    if d == [] then []
    else if d[0].0 == k then Remove(d[1..], k)
    else [d[0]] + Remove(d[1..], k)
  }

  lemma {:induction false} FindIs<V>(d: Dict<V>, i: nat)
    requires Keyed(d) && i < |d|
    ensures Find(d, d[i].0) == Some(d[i].1)
  {
    if i > 0 {
      HeadIsUnique(d);
      FindIs(d[1..], i - 1);
      assert d[0].0 != d[i].0;
    }
  }

  lemma PutKeyed<V>(d: Dict<V>, k: string, v: V)
    requires Keyed(d)
    ensures Keyed(Put(d, k, v))
  {
    var r := Put(d, k, v);
    FindNone(d, k);
    forall i, j | 0 <= i < j < |r| ensures r[i].0 != r[j].0 {
      if j < |d| {
        assert r[i].0 == d[i].0 && r[j].0 == d[j].0;
      } else {
        assert d[i] in d;
      }
    }
  }

  lemma {:induction false} RemoveKeyed<V>(d: Dict<V>, k: string)
    requires Keyed(d)
    ensures Keyed(Remove(d, k))
  {
    if d != [] {
      HeadIsUnique(d);
      RemoveKeyed(d[1..], k);
      InFront(d[0], Remove(d[1..], k));
    }
  }

  /** A pair in front of pairs with other keys. */
  lemma InFront<V>(p: (string, V), d: Dict<V>)
    requires Keyed(d)
    ensures (forall q | q in d :: q.0 != p.0) ==> Keyed([p] + d)
  {
    if forall q | q in d :: q.0 != p.0 {
      var r := [p] + d;
      forall i, j | 0 <= i < j < |r| ensures r[i].0 != r[j].0 {
        assert r[j] == d[j - 1] && d[j - 1] in d;
        if i > 0 {
          assert r[i] == d[i - 1];
        }
      }
    }
  }

  /** Removing a key that is not there changes nothing. */
  lemma {:induction false} RemoveAbsent<V>(d: Dict<V>, k: string)
    requires Find(d, k).None?
    ensures Remove(d, k) == d
  {
    if d != [] {
      RemoveAbsent(d[1..], k);
    }
  }
}
