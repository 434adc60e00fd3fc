/** Sums over sequences: the counting argument behind the job protocol's invariants. */
module Tallies {
  import opened Prelude

  /** The total of `f` over the elements of `s`, repetitions included. */
  function Sum<T>(s: seq<T>, f: T -> nat): (n: nat) {
    if s == [] then 0 else f(s[0]) + Sum(s[1..], f)
  }

  lemma {:induction false} SumConcat<T>(a: seq<T>, b: seq<T>, f: T -> nat)
    ensures Sum(a + b, f) == Sum(a, f) + Sum(b, f)
  {
    if a == [] {
      assert a + b == b;
    } else {
      assert (a + b)[1..] == a[1..] + b;
      SumConcat(a[1..], b, f);
    }
  }

  lemma SumAppend<T>(s: seq<T>, x: T, f: T -> nat)
    ensures Sum(s + [x], f) == Sum(s, f) + f(x)
  {
    SumConcat(s, [x], f);
    assert Sum([x], f) == f(x) + Sum([x][1..], f);
  }

  lemma {:induction false} SumAgree<T>(s: seq<T>, f: T -> nat, g: T -> nat)
    requires forall x | x in s :: f(x) == g(x)
    ensures Sum(s, f) == Sum(s, g)
  {
    if s != [] {
      SumAgree(s[1..], f, g);
    }
  }

  lemma SumWithout<T>(s: seq<T>, k: nat, f: T -> nat)
    requires k < |s|
    ensures Sum(s, f) == f(s[k]) + Sum(Without(s, k), f)
  {
    assert s == s[..k] + ([s[k]] + s[k + 1..]);
    SumConcat(s[..k], [s[k]] + s[k + 1..], f);
    assert ([s[k]] + s[k + 1..])[1..] == s[k + 1..];
    SumConcat(s[..k], s[k + 1..], f);
  }

  /** Changing what one element of a duplicate-free sequence contributes changes the sum by that much. */
  lemma SumUpdate<T>(s: seq<T>, x: T, f: T -> nat, g: T -> nat)
    requires Distinct(s) && x in s
    requires forall y | y in s && y != x :: f(y) == g(y)
    ensures Sum(s, g) + f(x) == Sum(s, f) + g(x)
  {
    var k :| 0 <= k < |s| && s[k] == x;
    SumWithout(s, k, f);
    SumWithout(s, k, g);
    SumAgree(Without(s, k), f, g);
  }

  lemma SumAtLeast<T>(s: seq<T>, k: nat, f: T -> nat)
    requires k < |s|
    ensures f(s[k]) <= Sum(s, f)
  {
    SumWithout(s, k, f);
  }

  /** A sum is zero exactly when every element contributes zero. */
  lemma {:induction false} SumZero<T>(s: seq<T>, f: T -> nat)
    ensures Sum(s, f) == 0 <==> forall x | x in s :: f(x) == 0
  {
    if s != [] {
      SumZero(s[1..], f);
      assert forall x | x in s :: x == s[0] || x in s[1..];
    }
  }

  /** How often `x` occurs in `s`. */
  function Times<T(==)>(s: seq<T>, x: T): nat {
    if s == [] then 0 else (if s[0] == x then 1 else 0) + Times(s[1..], x)
  }

  lemma {:induction false} TimesConcat<T>(a: seq<T>, b: seq<T>, x: T)
    ensures Times(a + b, x) == Times(a, x) + Times(b, x)
  {
    if a == [] {
      assert a + b == b;
    } else {
      assert (a + b)[1..] == a[1..] + b;
      TimesConcat(a[1..], b, x);
    }
  }

  lemma TimesAppend<T>(s: seq<T>, y: T, x: T)
    ensures Times(s + [y], x) == Times(s, x) + (if y == x then 1 else 0)
  {
    TimesConcat(s, [y], x);
    assert [y][1..] == [];
  }

  lemma {:induction false} TimesZero<T>(s: seq<T>, x: T)
    ensures Times(s, x) == 0 <==> x !in s
  {
    if s != [] {
      TimesZero(s[1..], x);
    }
  }
}
