/** Shared result types and small facts about sequences. */
module Prelude {

  /** A value that may be missing: Python's `None` beside a proper value. */
  datatype Option<+T> = None | Some(value: T)

  /** A call that returned a value or raised an exception. */
  datatype Result<+T, +E> = Ok(value: T) | Err(error: E)

  /** No element occurs twice. */
  ghost predicate Distinct<T>(s: seq<T>) {
    forall i, j :: 0 <= i < j < |s| ==> s[i] != s[j]
  }

  /** `s` with the element at position `k` taken out. */
  function Without<T>(s: seq<T>, k: nat): (r: seq<T>)
    requires k < |s|
  {
    s[..k] + s[k + 1..]
  }

  /** A prefix grows by one element at a time. */
  lemma PrefixStep<T>(s: seq<T>, k: nat)
    requires k < |s|
    ensures s[..k + 1] == s[..k] + [s[k]]
  {
  }

  /** An element may be counted to either side of a cut. */
  lemma Regroup<T>(a: seq<T>, x: T, b: seq<T>)
    ensures a + ([x] + b) == (a + [x]) + b
  {
  }

  /** `s` without any occurrence of `x`; also a dictionary's `pop(x, None)`, on its keys. */
  function Drop<T(==, !new)>(s: seq<T>, x: T): (r: seq<T>)
    ensures forall y :: y in r <==> y in s && y != x
    ensures Distinct(s) ==> Distinct(r)
  {
    if s == [] then []
    else
      var rest := Drop(s[1..], x);
      assert forall y | y in s :: y == s[0] || y in s[1..];
      assert Distinct(s) ==> Distinct(s[1..]) && s[0] !in s[1..];
      if s[0] == x then rest else [s[0]] + rest
  }

  /** `part` is what is left of `whole` when some elements are taken out. */
  predicate Subsequence<T(==)>(part: seq<T>, whole: seq<T>) {
    part == [] || (whole != [] && Subsequence(if part[0] == whole[0] then part[1..] else part, whole[1..]))
  }

  /** One more element in front, taken or left out. */
  lemma SubsequenceOneMore<T>(part: seq<T>, whole: seq<T>, take: bool)
    requires whole != [] && Subsequence(part, whole[1..])
    requires take || part == [] || part[0] != whole[0]
    ensures Subsequence((if take then [whole[0]] else []) + part, whole)
  {
    var r := (if take then [whole[0]] else []) + part;
    if take {
      assert r[1..] == part;
    } else {
      assert r == part;
    }
  }
}
