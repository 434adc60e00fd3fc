/** Strings the way the program compares and sorts them: by code points, lexicographically. */
module Texts {
  import opened Prelude

  predicate Leq(a: string, b: string) {
    a == [] || (b != [] && (a[0] < b[0] || (a[0] == b[0] && Leq(a[1..], b[1..]))))
  }

  lemma {:induction false} LeqReflexive(a: string)
    ensures Leq(a, a)
  {
    if a != [] {
      LeqReflexive(a[1..]);
    }
  }

  lemma {:induction false} LeqTotal(a: string, b: string)
    ensures Leq(a, b) || Leq(b, a)
  {
    if a != [] && b != [] {
      LeqTotal(a[1..], b[1..]);
    }
  }

  lemma {:induction false} LeqAntisymmetric(a: string, b: string)
    requires Leq(a, b) && Leq(b, a)
    ensures a == b
  {
    if a != [] && b != [] {
      LeqAntisymmetric(a[1..], b[1..]);
      assert a == [a[0]] + a[1..] && b == [b[0]] + b[1..];
    }
  }

  lemma {:induction false} LeqTransitive(a: string, b: string, c: string)
    requires Leq(a, b) && Leq(b, c)
    ensures Leq(a, c)
  {
    if a != [] && a[0] == b[0] && b[0] == c[0] {
      LeqTransitive(a[1..], b[1..], c[1..]);
    }
  }

  /** The order of strings: a prefix comes first, else the first character that differs decides. */
  lemma {:induction false} LeqMeans(a: string, b: string)
    ensures Leq(a, b) <==> a <= b || exists i :: 0 <= i < |a| && i < |b| && a[..i] == b[..i] && a[i] < b[i]
  {
    if a != [] && b != [] {
      if a[0] == b[0] {
        var c, d := a[1..], b[1..];
        LeqMeans(c, d);
        assert a == [a[0]] + c && b == [b[0]] + d;
        if i :| 0 <= i < |c| && i < |d| && c[..i] == d[..i] && c[i] < d[i] {
          assert a[..i + 1] == [a[0]] + c[..i] && b[..i + 1] == [b[0]] + d[..i] && a[i + 1] < b[i + 1];
        }
        if i :| 0 <= i < |a| && i < |b| && a[..i] == b[..i] && a[i] < b[i] {
          assert i > 0 && a[..i][1..] == c[..i - 1] && b[..i][1..] == d[..i - 1] && c[i - 1] < d[i - 1];
        }
      } else {
        assert a[..0] == b[..0];
        forall i | 0 < i < |a| && i < |b| ensures a[..i] != b[..i] {
          assert a[..i][0] != b[..i][0];
        }
      }
    }
  }

  // ---------------------------------------------------------------- sorting

  ghost predicate Ascending(s: seq<string>) {
    forall i, j | 0 <= i < j < |s| :: Leq(s[i], s[j])
  }

  function Insert(s: seq<string>, x: string): (r: seq<string>)
    ensures multiset(r) == multiset(s) + multiset{x}
  {
    if s == [] then [x]
    else if Leq(x, s[0]) then [x] + s
    else
      var rest := Insert(s[1..], x);
      assert s == [s[0]] + s[1..];
      [s[0]] + rest
  }

  /** The library's `sort`: the same strings in ascending order. */
  function Sort(s: seq<string>): (r: seq<string>)
    ensures multiset(r) == multiset(s)
  {
    if s == [] then []
    else
      assert s == [s[0]] + s[1..];
      Insert(Sort(s[1..]), s[0])
  }

  lemma {:induction false} InsertAscending(s: seq<string>, x: string)
    requires Ascending(s)
    ensures Ascending(Insert(s, x))
  {
    if s != [] {
      if Leq(x, s[0]) {
        forall j | 0 <= j < |s| ensures Leq(x, s[j]) {
          if j > 0 {
            LeqTransitive(x, s[0], s[j]);
          }
        }
      } else {
        var rest := Insert(s[1..], x);
        InsertAscending(s[1..], x);
        LeqTotal(x, s[0]);
        forall j | 0 <= j < |rest| ensures Leq(s[0], rest[j]) {
          assert rest[j] in multiset(rest);
          if rest[j] != x {
            assert rest[j] in s[1..];
          }
        }
      }
    }
  }

  lemma {:induction false} SortAscending(s: seq<string>)
    ensures Ascending(Sort(s))
  {
    if s != [] {
      SortAscending(s[1..]);
      InsertAscending(Sort(s[1..]), s[0]);
    }
  }

  lemma SortSameMembers(s: seq<string>, x: string)
    ensures x in Sort(s) <==> x in s
  {
    assert x in multiset(Sort(s)) <==> x in multiset(s);
  }

  lemma SortDistinct(s: seq<string>)
    requires Distinct(s)
    ensures Distinct(Sort(s))
  {
    DistinctByCount(Sort(s), s);
  }

  lemma DistinctByCount(r: seq<string>, s: seq<string>)
    requires multiset(r) == multiset(s) && Distinct(s)
    ensures Distinct(r)
  {
    forall x ensures multiset(s)[x] <= 1 {
      CountAtMostOne(s, x);
    }
    forall i, j | 0 <= i < j < |r| ensures r[i] != r[j] {
      assert r == r[..i] + [r[i]] + r[i + 1..j] + [r[j]] + r[j + 1..];
      assert r[i] == r[j] ==> multiset(r)[r[i]] >= 2;
    }
  }

  lemma {:induction false} CountAtMostOne(s: seq<string>, x: string)
    requires Distinct(s)
    ensures multiset(s)[x] <= 1
  {
    if s != [] {
      assert s == [s[0]] + s[1..];
      CountAtMostOne(s[1..], x);
      assert x == s[0] ==> x !in s[1..];
    }
  }

  // ---------------------------------------------------------------- splitting and joining

  /** `s.split(sep)`: the pieces between the separators, always at least one. */
  function Split(s: string, sep: char): (r: seq<string>)
    ensures r != []
    ensures forall p | p in r :: sep !in p
  {
    if s == [] then [[]]
    else
      var rest := Split(s[1..], sep);
      if s[0] == sep then [[]] + rest
      else
        assert forall p | p in rest[1..] :: p in rest;
        [[s[0]] + rest[0]] + rest[1..]
  }

  /** `sep.join(pieces)`. */
  function Join(pieces: seq<string>, sep: char): string {
    if pieces == [] then []
    else if |pieces| == 1 then pieces[0]
    else pieces[0] + [sep] + Join(pieces[1..], sep)
  }

  lemma {:induction false} JoinSplit(s: string, sep: char)
    ensures Join(Split(s, sep), sep) == s
  {
    if s != [] {
      var rest := Split(s[1..], sep);
      JoinSplit(s[1..], sep);
      if s[0] == sep {
        assert ([[]] + rest)[1..] == rest;
      } else {
        var r := [[s[0]] + rest[0]] + rest[1..];
        assert Split(s, sep) == r && r[1..] == rest[1..];
        if |rest| == 1 {
          assert r == [[s[0]] + rest[0]];
        } else {
          assert Join(r, sep) == [s[0]] + (rest[0] + [sep] + Join(rest[1..], sep));
        }
      }
    }
  }

  /** A piece without separators ends at the first one. */
  lemma {:induction false} SplitFirst(p: string, s: string, sep: char)
    requires sep !in p
    ensures Split(p, sep) == [p]
    ensures Split(p + [sep] + s, sep) == [p] + Split(s, sep)
  {
    var whole := p + [sep] + s;
    if p == [] {
      assert whole[1..] == s;
    } else {
      assert p[0] in p && forall c | c in p[1..] :: c in p;
      SplitFirst(p[1..], s, sep);
      assert whole[1..] == p[1..] + [sep] + s;
      assert p == [p[0]] + p[1..];
      assert ([p[1..]] + Split(s, sep))[1..] == Split(s, sep);
    }
  }

  /** Splitting goes on independently after a separator. */
  lemma {:induction false} SplitConcat(a: string, b: string, sep: char)
    ensures Split(a + [sep] + b, sep) == Split(a, sep) + Split(b, sep)
  {
    var whole := a + [sep] + b;
    if a == [] {
      assert whole[1..] == b;
    } else {
      SplitConcat(a[1..], b, sep);
      assert whole[1..] == a[1..] + [sep] + b;
      SplitStep(whole, sep);
      SplitStep(a, sep);
      Prepended(a[0], Split(a[1..], sep), Split(b, sep), sep);
    }
  }

  /** The pieces with one more character in front. */
  function Prepend(c: char, pieces: seq<string>, sep: char): seq<string>
    requires pieces != []
  {
    if c == sep then [[]] + pieces else [[c] + pieces[0]] + pieces[1..]
  }

  lemma SplitStep(s: string, sep: char)
    requires s != []
    ensures Split(s, sep) == Prepend(s[0], Split(s[1..], sep), sep)
  {
  }

  lemma Prepended(c: char, pieces: seq<string>, more: seq<string>, sep: char)
    requires pieces != []
    ensures Prepend(c, pieces + more, sep) == Prepend(c, pieces, sep) + more
  {
    assert (pieces + more)[1..] == pieces[1..] + more;
  }

  lemma {:induction false} SplitJoin(pieces: seq<string>, sep: char)
    requires pieces != [] && forall p | p in pieces :: sep !in p
    ensures Split(Join(pieces, sep), sep) == pieces
  {
    SplitFirst(pieces[0], Join(pieces[1..], sep), sep);
    if |pieces| > 1 {
      assert forall p | p in pieces[1..] :: p in pieces;
      SplitJoin(pieces[1..], sep);
    }
  }

  // ---------------------------------------------------------------- white space and numbers

  /** White space as `str.split` and `str.strip` see it, within ASCII. */
  predicate Space(c: char) {
    c == ' ' || '\t' <= c <= '\r' || '\U{1c}' <= c <= '\U{1f}'
  }

  /** The maximal runs of characters that are not white space. */
  function Words(s: string): (r: seq<string>)
    ensures forall w | w in r :: w != [] && forall c | c in w :: !Space(c)
    decreases |s|
  {
    if s == [] then []
    else if Space(s[0]) then Words(s[1..])
    else
      var n := WordLength(s);
      [s[..n]] + Words(s[n..])
  }

  function WordLength(s: string): (n: nat)
    ensures n <= |s| && forall i | 0 <= i < n :: !Space(s[i])
    ensures n < |s| ==> Space(s[n])
    ensures s != [] && !Space(s[0]) ==> n > 0
  {
    if s == [] || Space(s[0]) then 0
    else 1 + WordLength(s[1..])
  }

  predicate Digit(c: char) {
    '0' <= c <= '9'
  }

  function DigitValue(c: char): (n: nat)
    requires Digit(c)
    ensures n < 10
  {
    c as int - '0' as int
  }

  /** The number a string of digits denotes. */
  function Decimal(s: string): nat
    requires forall c | c in s :: Digit(c)
  {
    if s == [] then 0
    else
      assert s[|s| - 1] in s && forall c | c in s[..|s| - 1] :: c in s;
      10 * Decimal(s[..|s| - 1]) + DigitValue(s[|s| - 1])
  }

  function StripLeft(s: string, drop: char -> bool): (r: string)
    ensures r == [] || !drop(r[0])
  {
    if s == [] || !drop(s[0]) then s else StripLeft(s[1..], drop)
  }

  /** Stripping at the front leaves the end alone. */
  lemma {:induction false} StripLeftEnd(s: string, drop: char -> bool)
    ensures StripLeft(s, drop) == [] || (s != [] && StripLeft(s, drop)[|StripLeft(s, drop)| - 1] == s[|s| - 1])
  {
    if s != [] && drop(s[0]) {
      StripLeftEnd(s[1..], drop);
    }
  }

  function StripRight(s: string, drop: char -> bool): (r: string)
    ensures r == [] || !drop(r[|r| - 1])
    ensures r <= s
  {
    if s == [] || !drop(s[|s| - 1]) then s else StripRight(s[..|s| - 1], drop)
  }

  /** White space as `int` skips it in ASCII text: narrower than `Space`. */
  predicate NumberSpace(c: char) {
    c == ' ' || '\t' <= c <= '\r'
  }

  /** Digits, with single underscores allowed between them. */
  predicate DigitGroups(s: string) {
    && s != [] && Digit(s[0]) && Digit(s[|s| - 1])
    && (forall i | 0 <= i < |s| :: Digit(s[i]) || s[i] == '_')
    && (forall i | 0 <= i < |s| - 1 :: s[i] == '_' ==> s[i + 1] != '_')
  }

  function KeepDigits(s: string): (r: string)
    ensures forall c | c in r :: Digit(c)
  {
    if s == [] then [] else (if Digit(s[0]) then [s[0]] else []) + KeepDigits(s[1..])
  }

  /** `int(s)` on ASCII text; nothing when it raises ValueError. */
  function ParseInt(s: string): Option<int> {
    var t := StripRight(StripLeft(s, NumberSpace), NumberSpace);
    var negative := t != [] && t[0] == '-';
    var body := if t != [] && (t[0] == '-' || t[0] == '+') then t[1..] else t;
    if DigitGroups(body) then
      var n: int := Decimal(KeepDigits(body));
      Some(if negative then -n else n)
    else None
  }

  /** `s.strip()`. */
  function Strip(s: string): (r: string)
    ensures r == [] || (!Space(r[0]) && !Space(r[|r| - 1]))
  {
    StripRight(StripLeft(s, Space), Space)
  }

  lemma {:induction false} StripLeftPad(pad: string, s: string, drop: char -> bool)
    requires (forall c | c in pad :: drop(c)) && (s == [] || !drop(s[0]))
    ensures StripLeft(pad + s, drop) == s
  {
    if pad == [] {
      assert pad + s == s;
    } else {
      assert pad[0] in pad && forall c | c in pad[1..] :: c in pad;
      assert (pad + s)[1..] == pad[1..] + s;
      StripLeftPad(pad[1..], s, drop);
    }
  }

  lemma {:induction false} StripRightPad(s: string, pad: string, drop: char -> bool)
    requires (forall c | c in pad :: drop(c)) && (s == [] || !drop(s[|s| - 1]))
    ensures StripRight(s + pad, drop) == s
    decreases |pad|
  {
    if pad == [] {
      assert s + pad == s;
    } else {
      var front := pad[..|pad| - 1];
      assert pad[|pad| - 1] in pad && forall c | c in front :: c in pad;
      assert (s + pad)[..|s + pad| - 1] == s + front;
      StripRightPad(s, front, drop);
    }
  }

  ghost predicate Blank(s: string) {
    forall c | c in s :: Space(c)
  }

  /** Stripping takes away the white space around a text, and nothing else. */
  lemma StripMeans(left: string, s: string, right: string)
    requires Blank(left) && Blank(right)
    requires s == [] || (!Space(s[0]) && !Space(s[|s| - 1]))
    ensures Strip(left + s + right) == s
  {
    if s == [] {
      assert left + s + right == left + right + [];
      StripLeftPad(left + right, [], Space);
    } else {
      assert left + s + right == left + (s + right);
      StripLeftPad(left, s + right, Space);
      StripRightPad(s, right, Space);
    }
  }

  lemma StripNothing(s: string)
    requires s == [] || (!Space(s[0]) && !Space(s[|s| - 1]))
    ensures Strip(s) == s
  {
  }

  /** The position of the first `c`, or the length. */
  function IndexOf(s: string, c: char): (i: nat)
    ensures i <= |s| && c !in s[..i]
    ensures i < |s| ==> s[i] == c
  {
    if s == [] || s[0] == c then 0
    else
      var i := 1 + IndexOf(s[1..], c);
      assert s[..i] == [s[0]] + s[1..][..i - 1];
      i
  }

  lemma {:induction false} IndexOfFirst(a: string, c: char, b: string)
    requires c !in a
    ensures IndexOf(a + [c] + b, c) == |a| && IndexOf(a, c) == |a|
  {
    if a != [] {
      assert a[0] in a && forall x | x in a[1..] :: x in a;
      assert (a + [c] + b)[1..] == a[1..] + [c] + b;
      IndexOfFirst(a[1..], c, b);
    }
  }

  /** A number in decimal digits. */
  function NumberText(n: nat): (r: string)
    ensures r != [] && forall c | c in r :: Digit(c)
  {
    var last := ['0' + (n % 10) as char];
    if n < 10 then last else NumberText(n / 10) + last
  }

  /** Reading the digits of a number gives the number back. */
  lemma {:induction false} DecimalOfNumberText(n: nat)
    ensures Decimal(NumberText(n)) == n
  {
    var r := NumberText(n);
    if n >= 10 {
      DecimalOfNumberText(n / 10);
      assert r[..|r| - 1] == NumberText(n / 10);
    } else {
      assert r[..|r| - 1] == [];
      assert Decimal([]) == 0;
    }
  }

  lemma {:induction false} KeepDigitsOfDigits(s: string)
    requires forall c | c in s :: Digit(c)
    ensures KeepDigits(s) == s
  {
    if s != [] {
      assert s[0] in s && forall c | c in s[1..] :: c in s;
      KeepDigitsOfDigits(s[1..]);
    }
  }
}
