/** Versions: parsing, printing and order, requirement expressions and negotiation. */
module Versions {
  import opened Prelude
  import opened Texts

  datatype Version = Version(major: nat, minor: nat, patch: nat, prerelease: string)

  // ---------------------------------------------------------------- parsing and printing

  /** Everything but the digits is ignored; no digits are zero. */
  function NumberOf(part: string): nat {
    Decimal(KeepDigits(part))
  }

  predicate IsV(c: char) {
    c == 'v'
  }

  /** Without white space around it and leading v's. */
  function Cleaned(s: string): string {
    StripLeft(Strip(s), IsV)
  }

  /** What follows the first hyphen. */
  function PrereleaseOf(clean: string): string {
    var i := IndexOf(clean, '-');
    if i < |clean| then clean[i + 1..] else ""
  }

  function ReleaseParts(clean: string): seq<string> {
    Split(clean[..IndexOf(clean, '-')], '.')
  }

  function FromParts(parts: seq<string>, prerelease: string): Version
    requires parts != []
  {
    Version(NumberOf(parts[0]), if |parts| > 1 then NumberOf(parts[1]) else 0, if |parts| > 2 then NumberOf(parts[2]) else 0, prerelease)
  }

  function Parse(s: string): Version {
    FromParts(ReleaseParts(Cleaned(s)), PrereleaseOf(Cleaned(s)))
  }

  function Release(v: Version): string {
    NumberText(v.major) + ['.'] + (NumberText(v.minor) + ['.'] + NumberText(v.patch))
  }

  function Print(v: Version): string {
    if v.prerelease != "" then Release(v) + ['-'] + v.prerelease else Release(v)
  }

  /** The prerelease part does not end in white space. */
  predicate Tidy(v: Version) {
    v.prerelease == "" || !Space(v.prerelease[|v.prerelease| - 1])
  }

  lemma CleanedEnd(s: string)
    ensures var clean := Cleaned(s); clean == "" || !Space(clean[|clean| - 1])
  {
    StripLeftEnd(Strip(s), IsV);
  }

  lemma PrereleaseEnd(clean: string)
    ensures var p := PrereleaseOf(clean); p != "" ==> clean != "" && p[|p| - 1] == clean[|clean| - 1]
  {
  }

  lemma ParsedIsTidy(s: string)
    ensures Tidy(Parse(s))
  {
    CleanedEnd(s);
    PrereleaseEnd(Cleaned(s));
  }

  lemma NumberOfText(n: nat)
    ensures NumberOf(NumberText(n)) == n
    ensures forall c | c in NumberText(n) :: c != '.' && c != '-' && c != 'v' && !Space(c)
  {
    DecimalOfNumberText(n);
    KeepDigitsOfDigits(NumberText(n));
  }

  lemma ThreePieces(a: string, b: string, c: string)
    requires '.' !in a && '.' !in b && '.' !in c
    ensures Split(a + ['.'] + (b + ['.'] + c), '.') == [a, b, c]
  {
    SplitFirst(a, b + ['.'] + c, '.');
    SplitFirst(b, c, '.');
    SplitFirst(c, "", '.');
    assert [a] + ([b] + [c]) == [a, b, c];
  }

  lemma ReleaseParses(v: Version)
    ensures Split(Release(v), '.') == [NumberText(v.major), NumberText(v.minor), NumberText(v.patch)]
    ensures '-' !in Release(v)
  {
    NumberOfText(v.major);
    NumberOfText(v.minor);
    NumberOfText(v.patch);
    ThreePieces(NumberText(v.major), NumberText(v.minor), NumberText(v.patch));
  }

  lemma ReleaseEnds(v: Version)
    ensures var r := Release(v); r != [] && Digit(r[0]) && Digit(r[|r| - 1])
  {
    var a, c := NumberText(v.major), NumberText(v.patch);
    assert a[0] in a && c[|c| - 1] in c;
    assert Release(v)[0] == a[0] && Release(v)[|Release(v)| - 1] == c[|c| - 1];
  }

  lemma PrintedEnds(v: Version)
    requires Tidy(v)
    ensures var s := Print(v); s != [] && !Space(s[0]) && !Space(s[|s| - 1]) && Strip(s) == s
  {
    ReleaseEnds(v);
    var s := Print(v);
    assert s[0] == Release(v)[0];
    if v.prerelease != "" {
      assert s[|s| - 1] == v.prerelease[|v.prerelease| - 1];
    }
    StripNothing(s);
  }

  lemma PrintedIsClean(v: Version)
    requires Tidy(v)
    ensures Cleaned(Print(v)) == Print(v)
  {
    ReleaseEnds(v);
    PrintedEnds(v);
    assert Print(v)[0] == Release(v)[0];
  }

  lemma PrintedParts(v: Version)
    ensures ReleaseParts(Print(v)) == Split(Release(v), '.') && PrereleaseOf(Print(v)) == v.prerelease
  {
    ReleaseParses(v);
    var r, s := Release(v), Print(v);
    IndexOfFirst(r, '-', v.prerelease);
    assert s[..|r|] == r;
    if v.prerelease != "" {
      assert s[|r| + 1..] == v.prerelease;
    }
  }

  lemma PrintThenParse(v: Version)
    requires Tidy(v)
    ensures Parse(Print(v)) == v
  {
    PrintedIsClean(v);
    PrintedParts(v);
    ReleaseParses(v);
    NumberOfText(v.major);
    NumberOfText(v.minor);
    NumberOfText(v.patch);
  }

  /** Parsing undoes printing exactly for the versions whose prerelease part does not end in white space. */
  lemma PrintThenParseIff(v: Version)
    ensures Parse(Print(v)) == v <==> Tidy(v)
  {
    ParsedIsTidy(Print(v));
    if Tidy(v) {
      PrintThenParse(v);
    }
  }

  /** Printing undoes parsing, for every string. */
  lemma PrintUndoesParse(s: string)
    ensures Parse(Print(Parse(s))) == Parse(s)
  {
    ParsedIsTidy(s);
    PrintThenParse(Parse(s));
  }

  // ---------------------------------------------------------------- order

  predicate IsRelease(v: Version) {
    v.prerelease == ""
  }

  /** Comparing the tuples (major, minor, patch, is release, prerelease). */
  predicate AtMost(a: Version, b: Version) {
    if a.major != b.major then a.major < b.major
    else if a.minor != b.minor then a.minor < b.minor
    else if a.patch != b.patch then a.patch < b.patch
    else if IsRelease(a) != IsRelease(b) then IsRelease(b)
    else Leq(a.prerelease, b.prerelease)
  }

  predicate Below(a: Version, b: Version) {
    AtMost(a, b) && a != b
  }

  lemma OrderTotal(a: Version, b: Version)
    ensures AtMost(a, b) || AtMost(b, a)
    ensures AtMost(a, a)
  {
    LeqTotal(a.prerelease, b.prerelease);
    LeqReflexive(a.prerelease);
  }

  lemma OrderAntisymmetric(a: Version, b: Version)
    requires AtMost(a, b) && AtMost(b, a)
    ensures a == b
  {
    LeqAntisymmetric(a.prerelease, b.prerelease);
  }

  lemma OrderTransitive(a: Version, b: Version, c: Version)
    requires AtMost(a, b) && AtMost(b, c)
    ensures AtMost(a, c)
  {
    if a.major == b.major == c.major && a.minor == b.minor == c.minor && a.patch == b.patch == c.patch
       && IsRelease(a) == IsRelease(b) == IsRelease(c) {
      LeqTransitive(a.prerelease, b.prerelease, c.prerelease);
    }
  }

  /** The three numbers decide first, the earlier before the later. */
  predicate NumbersBelow(a: Version, b: Version) {
    || a.major < b.major
    || (a.major == b.major && a.minor < b.minor)
    || (a.major == b.major && a.minor == b.minor && a.patch < b.patch)
  }

  /** Of versions with the same numbers the release is the greatest, and the others go by the order of their texts. */
  lemma OrderMeans(a: Version, b: Version)
    ensures NumbersBelow(a, b) ==> AtMost(a, b) && !AtMost(b, a)
    ensures a.major == b.major && a.minor == b.minor && a.patch == b.patch ==>
              (AtMost(a, b) <==>
                 || b.prerelease == "" || (a.prerelease != "" && a.prerelease <= b.prerelease)
                 || exists i :: 0 <= i < |a.prerelease| && i < |b.prerelease|
                                && a.prerelease[..i] == b.prerelease[..i] && a.prerelease[i] < b.prerelease[i])
  {
    LeqMeans(a.prerelease, b.prerelease);
  }

  // ---------------------------------------------------------------- requirement expressions

  datatype Requirement = Anything | Caret(base: Version) | Relation(operator: string, version: Version)

  const OPERATORS := [">=", "<=", ">", "<", "==", "!="]

  /** The first operator the text starts with. */
  function OperatorOf(text: string, operators: seq<string>): (r: Option<string>)
    ensures r.Some? ==> r.value <= text
  {
    if operators == [] then None
    else if operators[0] <= text then Some(operators[0])
    else OperatorOf(text, operators[1..])
  }

  function Required(expression: string): Requirement {
    if expression == "" || Strip(expression) == "*" then Anything
    else
      var e := Strip(expression);
      if "^" <= e then Caret(Parse(Strip(e[1..])))
      else match OperatorOf(e, OPERATORS)
           case Some(o) => Relation(o, Parse(Strip(e[|o|..])))
           case None => Relation("==", Parse(e))
  }

  /** The first version above a caret range. */
  function Limit(base: Version): Version {
    if base.major > 0 then Version(base.major + 1, 0, 0, "")
    else if base.minor > 0 then Version(0, base.minor + 1, 0, "")
    else Version(0, 0, base.patch + 1, "")
  }

  predicate Holds(operator: string, core: Version, v: Version) {
    if operator == ">=" then AtMost(v, core)
    else if operator == "<=" then AtMost(core, v)
    else if operator == ">" then Below(v, core)
    else if operator == "<" then Below(core, v)
    else if operator == "==" then core == v
    else operator == "!=" && core != v
  }

  predicate Admits(r: Requirement, core: Version) {
    match r
    case Anything => true
    case Caret(base) => AtMost(base, core) && Below(core, Limit(base))
    case Relation(o, v) => Holds(o, core, v)
  }

  /** The same leading component, up to the first that is not zero. */
  predicate SameLine(base: Version, v: Version) {
    && v.major == base.major
    && (base.major > 0 || (v.minor == base.minor && (base.minor > 0 || v.patch == base.patch)))
  }

  /** A prerelease of the version just above the range. */
  predicate OfLimit(base: Version, v: Version) {
    v.(prerelease := "") == Limit(base) && !IsRelease(v)
  }

  /** A caret range holds the versions from its base on in the same line, and also the prereleases of its upper limit. */
  lemma CaretMeaning(base: Version, v: Version)
    ensures Admits(Caret(base), v) <==> AtMost(base, v) && (SameLine(base, v) || OfLimit(base, v))
  {
    LeqAntisymmetricAtEmpty(v.prerelease);
  }

  /** What a caret expression written with a printed version requires. */
  lemma CaretText(base: Version)
    requires Tidy(base)
    ensures Required("^" + Print(base)) == Caret(base)
  {
    var e := "^" + Print(base);
    PrintedEnds(base);
    assert e[0] == '^' && e[|e| - 1] == Print(base)[|Print(base)| - 1] && e[1..] == Print(base);
    StripNothing(e);
    PrintThenParse(base);
  }

  /** So every prerelease of the next breaking version is taken for compatible with the base: 2.0.0-alpha with ^1.6.0. */
  lemma CaretAdmitsPrereleases(base: Version, prerelease: string)
    requires Tidy(base) && prerelease != "" && !Space(prerelease[|prerelease| - 1])
    ensures Compatible("^" + Print(base), Print(Limit(base).(prerelease := prerelease)))
  {
    var next := Limit(base).(prerelease := prerelease);
    CaretText(base);
    PrintThenParse(next);
    CaretMeaning(base, next);
  }

  lemma LeqAntisymmetricAtEmpty(s: string)
    ensures Leq(s, "") <==> s == ""
  {
  }

  /** Whether a version satisfies an expression depends on what it parses to only. */
  predicate Compatible(expression: string, version: string) {
    Admits(Required(expression), Parse(version))
  }

  method IsCompatible(expression: string, coreVersion: string) returns (ok: bool)
    ensures ok <==> Compatible(expression, coreVersion)
  {
    if expression == "" || Strip(expression) == "*" {
      return true;
    }
    var e := Strip(expression);
    var core := Parse(coreVersion);
    if "^" <= e {
      ok := InCaretRange(Parse(Strip(e[1..])), core);
      return ok;
    }
    var found := FindOperator(e, OPERATORS);
    match found
    case Some(op) => return Holds(op, core, Parse(Strip(e[|op|..])));
    case None => return Holds("==", core, Parse(e));
  }

  // ---------------------------------------------------------------- what expressions mean

  /** A text that begins like a number carries no operator. */
  lemma NoOperator(e: string)
    requires e != "" && Digit(e[0])
    ensures OperatorOf(e, OPERATORS) == None && !("^" <= e) && e != "*"
  {
    assert OPERATORS[1..] == ["<=", ">", "<", "==", "!="] && OPERATORS[2..] == [">", "<", "==", "!="];
    assert OPERATORS[3..] == ["<", "==", "!="] && OPERATORS[4..] == ["==", "!="] && OPERATORS[5..] == ["!="];
    OperatorStep(e, 0);
    OperatorStep(e, 1);
    OperatorStep(e, 2);
    OperatorStep(e, 3);
    OperatorStep(e, 4);
    OperatorStep(e, 5);
    assert OPERATORS[..] == OPERATORS[0..] && OPERATORS[6..] == [];
  }

  lemma OperatorStep(e: string, i: nat)
    requires i < |OPERATORS|
    ensures OperatorOf(e, OPERATORS[i..]) == if OPERATORS[i] <= e then Some(OPERATORS[i]) else OperatorOf(e, OPERATORS[i + 1..])
  {
    assert OPERATORS[i..][1..] == OPERATORS[i + 1..] && OPERATORS[i..][0] == OPERATORS[i];
  }

  /** An operator is found when what follows it does not begin with an equals sign. */
  lemma OperatorFound(op: string, rest: string)
    requires op in OPERATORS && rest != "" && rest[0] != '='
    ensures OperatorOf(op + rest, OPERATORS) == Some(op) && !("^" <= op + rest) && op + rest != "*"
  {
    var e := op + rest;
    assert e[0] == op[0] && e[1] == if |op| == 2 then op[1] else rest[0];
    OperatorStep(e, 0);
    OperatorStep(e, 1);
    OperatorStep(e, 2);
    OperatorStep(e, 3);
    OperatorStep(e, 4);
    OperatorStep(e, 5);
    assert OPERATORS[..] == OPERATORS[0..];
    assert op <= e;
  }

  /** An operator and a version, with white space around both. */
  function Written(left: string, op: string, mid: string, v: Version, right: string): string {
    left + (op + (mid + Print(v))) + right
  }

  lemma VersionAfterSpace(mid: string, v: Version)
    requires Blank(mid) && Tidy(v)
    ensures var rest := mid + Print(v);
      && rest != "" && rest[0] != '=' && !Space(rest[|rest| - 1])
      && Parse(Strip(rest)) == v
  {
    var rest := mid + Print(v);
    ReleaseEnds(v);
    PrintedEnds(v);
    assert Print(v)[0] == Release(v)[0] && rest[|rest| - 1] == Print(v)[|Print(v)| - 1];
    assert rest[0] == if mid == "" then Print(v)[0] else mid[0];
    assert mid != "" ==> mid[0] in mid;
    assert mid + Print(v) + "" == rest;
    StripMeans(mid, Print(v), "");
    PrintThenParse(v);
  }

  lemma OperatorText(op: string, left: string, rest: string, right: string)
    requires op in OPERATORS && Blank(left) && Blank(right)
    requires rest != "" && rest[0] != '=' && !Space(rest[|rest| - 1])
    ensures Required(left + (op + rest) + right) == Relation(op, Parse(Strip(rest)))
  {
    var e := op + rest;
    OperatorFound(op, rest);
    assert e[0] == op[0] && e[|e| - 1] == rest[|rest| - 1];
    StripMeans(left, e, right);
    assert e[|op|..] == rest;
  }

  /**
   What the operators mean, with any white space around the operator and the version; `v` may be any
   version that has a text.
   */
  lemma OperatorMeans(op: string, left: string, mid: string, v: Version, right: string, text: string)
    requires op in [">=", "<=", ">", "<", "==", "!="] && Blank(left) && Blank(mid) && Blank(right) && Tidy(v)
    ensures var met, core := Compatible(Written(left, op, mid, v, right), text), Parse(text);
      && (op == ">=" ==> (met <==> AtMost(v, core)))
      && (op == "<=" ==> (met <==> AtMost(core, v)))
      && (op == ">" ==> (met <==> AtMost(v, core) && v != core))
      && (op == "<" ==> (met <==> AtMost(core, v) && v != core))
      && (op == "==" ==> (met <==> v == core))
      && (op == "!=" ==> (met <==> v != core))
  {
    VersionAfterSpace(mid, v);
    OperatorText(op, left, mid + Print(v), right);
  }

  lemma BareText(left: string, right: string, v: Version)
    requires Blank(left) && Blank(right) && Tidy(v)
    ensures Required(left + Print(v) + right) == Relation("==", v)
  {
    ReleaseEnds(v);
    PrintedEnds(v);
    assert Print(v)[0] == Release(v)[0];
    NoOperator(Print(v));
    StripMeans(left, Print(v), right);
    PrintThenParse(v);
  }

  /** A version alone asks for exactly that one; nothing and a star ask for nothing. */
  lemma PlainExpressionsMean(left: string, right: string, v: Version, text: string)
    requires Blank(left) && Blank(right) && Tidy(v)
    ensures Compatible(left + Print(v) + right, text) <==> Parse(text) == v
    ensures Compatible("", text) && Compatible(left + "*" + right, text)
  {
    BareMeans(left, right, v, text);
    StarMeans(left, right, text);
  }

  lemma BareMeans(left: string, right: string, v: Version, text: string)
    requires Blank(left) && Blank(right) && Tidy(v)
    ensures Compatible(left + Print(v) + right, text) <==> Parse(text) == v
  {
    BareText(left, right, v);
  }

  lemma StarMeans(left: string, right: string, text: string)
    requires Blank(left) && Blank(right)
    ensures Compatible("", text) && Compatible(left + "*" + right, text)
  {
    StripMeans(left, "*", right);
  }

  /** A text with fewer numbers than three is read with zeros for the others. */
  lemma ShortForms(major: nat, minor: nat)
    ensures Parse(NumberText(major)) == Version(major, 0, 0, "")
    ensures Parse(NumberText(major) + ['.'] + NumberText(minor)) == Version(major, minor, 0, "")
  {
    NumberOfText(major);
    NumberOfText(minor);
    var a, b := NumberText(major), NumberText(minor);
    var ab := a + ['.'] + b;
    assert a[0] in a && a[|a| - 1] in a && b[|b| - 1] in b;
    StripNothing(a);
    assert ab[0] == a[0] && ab[|ab| - 1] == b[|b| - 1];
    StripNothing(ab);
    NoHyphen(a);
    NoHyphen(ab);
    SplitFirst(a, b, '.');
    SplitFirst(b, "", '.');
  }

  lemma NoHyphen(s: string)
    requires '-' !in s
    ensures IndexOf(s, '-') == |s| && s[..|s|] == s
  {
    IndexOfFirst(s, '-', "");
  }

  /** White space and leading v's around a version's text do not matter. */
  lemma DecorationIgnored(left: string, vs: string, v: Version, right: string)
    requires Blank(left) && Blank(right) && Tidy(v) && forall c | c in vs :: c == 'v'
    ensures Parse(left + (vs + Print(v)) + right) == v
  {
    var s := vs + Print(v);
    ReleaseEnds(v);
    PrintedEnds(v);
    assert Print(v)[0] == Release(v)[0] && s[|s| - 1] == Print(v)[|Print(v)| - 1];
    assert s[0] == if vs == "" then Print(v)[0] else vs[0];
    assert vs != "" ==> vs[0] in vs;
    StripMeans(left, s, right);
    StripLeftPad(vs, Print(v), IsV);
    PrintedIsClean(v);
    PrintThenParse(v);
  }

  /** The upper limit is printed and parsed again. */
  method InCaretRange(base: Version, core: Version) returns (ok: bool)
    ensures ok <==> Admits(Caret(base), core)
  {
    var limit := Limit(base);
    PrintThenParse(limit);
    var upper := Parse(Print(limit));
    return AtMost(base, core) && Below(core, upper);
  }

  /** The loop over the operators. */
  method FindOperator(text: string, operators: seq<string>) returns (r: Option<string>)
    ensures r == OperatorOf(text, operators)
  {
    for i := 0 to |operators|
      invariant OperatorOf(text, operators) == OperatorOf(text, operators[i..])
    {
      assert operators[i..][1..] == operators[i + 1..] && operators[i..][0] == operators[i];
      if operators[i] <= text {
        return Some(operators[i]);
      }
    }
    return None;
  }

  // ---------------------------------------------------------------- negotiation

  /**
   `negotiate`: raises exactly when no server version satisfies the expression; otherwise the string
   returned satisfies it, is one of those versions printed, and is at least every one of them.
   */
  method Negotiate(expression: string, serverVersions: seq<string>) returns (r: Option<string>)
    ensures r.None? <==> forall s | s in serverVersions :: !Compatible(expression, s)
    ensures r.Some? ==> Compatible(expression, r.value)
    ensures r.Some? ==> exists s :: s in serverVersions && Compatible(expression, s) && r.value == Print(Parse(s))
    ensures r.Some? ==> forall s | s in serverVersions && Compatible(expression, s) :: AtMost(Parse(s), Parse(r.value))
  {
    var compatible := [];
    for i := 0 to |serverVersions|
      invariant forall s :: s in compatible <==> s in serverVersions[..i] && Compatible(expression, s)
    {
      PrefixStep(serverVersions, i);
      var ok := IsCompatible(expression, serverVersions[i]);
      if ok {
        compatible := compatible + [serverVersions[i]];
      }
    }
    assert serverVersions[..|serverVersions|] == serverVersions;
    if compatible == [] {
      return None;
    }
    var k := IndexOfMax(ParseAll(compatible));
    BestIsBest(expression, serverVersions, compatible, k);
    return Some(Print(Parse(compatible[k])));
  }

  function ParseAll(versions: seq<string>): (r: seq<Version>)
    ensures |r| == |versions| && forall i | 0 <= i < |r| :: r[i] == Parse(versions[i])
  {
    if versions == [] then [] else [Parse(versions[0])] + ParseAll(versions[1..])
  }

  lemma BestIsBest(expression: string, servers: seq<string>, compatible: seq<string>, k: nat)
    requires k < |compatible| && forall s :: s in compatible <==> s in servers && Compatible(expression, s)
    requires forall v | v in ParseAll(compatible) :: AtMost(v, ParseAll(compatible)[k])
    ensures compatible[k] in servers && Compatible(expression, compatible[k])
    ensures var r := Print(Parse(compatible[k]));
      && Compatible(expression, r)
      && forall s | s in servers && Compatible(expression, s) :: AtMost(Parse(s), Parse(r))
  {
    PrintUndoesParse(compatible[k]);
    assert compatible[k] in compatible;
    forall s | s in servers && Compatible(expression, s) ensures AtMost(Parse(s), Parse(compatible[k])) {
      var i :| 0 <= i < |compatible| && compatible[i] == s;
      assert ParseAll(compatible)[i] in ParseAll(compatible);
    }
  }

  /** The library's `max`: the first of the greatest. */
  method IndexOfMax(versions: seq<Version>) returns (k: nat)
    requires versions != []
    ensures k < |versions| && forall v | v in versions :: AtMost(v, versions[k])
  {
    k := 0;
    OrderTotal(versions[0], versions[0]);
    for i := 1 to |versions|
      invariant k < |versions| && forall v | v in versions[..i] :: AtMost(v, versions[k])
    {
      PrefixStep(versions, i);
      OrderTotal(versions[i], versions[k]);
      OrderTotal(versions[i], versions[i]);
      if Below(versions[k], versions[i]) {
        forall v | v in versions[..i] ensures AtMost(v, versions[i]) {
          OrderTransitive(v, versions[k], versions[i]);
        }
        k := i;
      }
    }
    assert versions[..|versions|] == versions;
  }
}
