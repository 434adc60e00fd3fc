/** What cron expressions mean, as they are written. */
module CronTexts {
  import opened Prelude
  import opened Texts
  import opened Calendar
  import opened Cron

  // ---------------------------------------------------------------- numbers

  ghost predicate Padding(s: string) {
    forall c | c in s :: NumberSpace(c)
  }

  lemma Trimmed(left: string, s: string, right: string)
    requires Padding(left) && Padding(right) && s != "" && !NumberSpace(s[0]) && !NumberSpace(s[|s| - 1])
    ensures StripRight(StripLeft(left + (s + right), NumberSpace), NumberSpace) == s
  {
    StripLeftPad(left, s + right, NumberSpace);
    StripRightPad(s, right, NumberSpace);
  }

  lemma DigitsRead(s: string, n: nat)
    requires StripRight(StripLeft(s, NumberSpace), NumberSpace) == NumberText(n)
    ensures ParseInt(s) == Some(n)
  {
    var t := NumberText(n);
    assert t[0] in t;
    DecimalOfNumberText(n);
    KeepDigitsOfDigits(t);
    DigitsAreGroups(t);
  }

  lemma SignedRead(s: string, n: nat)
    requires StripRight(StripLeft(s, NumberSpace), NumberSpace) == ['-'] + NumberText(n)
    ensures ParseInt(s).Some? && ParseInt(s).value + n == 0
  {
    var t := NumberText(n);
    assert (['-'] + t)[1..] == t;
    DecimalOfNumberText(n);
    KeepDigitsOfDigits(t);
    DigitsAreGroups(t);
  }

  /** A number in decimal digits is read as itself, whatever white space is around it. */
  lemma NumberRead(s: string, left: string, n: nat, right: string)
    requires Padding(left) && Padding(right) && s == left + (NumberText(n) + right)
    ensures ParseInt(s) == Some(n)
  {
    var t := NumberText(n);
    assert t[0] in t && t[|t| - 1] in t;
    Trimmed(left, t, right);
    DigitsRead(s, n);
  }

  /** With a minus sign in front it is read as its opposite. */
  lemma NegativeRead(s: string, left: string, n: nat, right: string)
    requires Padding(left) && Padding(right) && s == left + ((['-'] + NumberText(n)) + right)
    ensures ParseInt(s).Some? && ParseInt(s).value + n == 0
  {
    var t := NumberText(n);
    var minus := ['-'] + t;
    assert t[|t| - 1] in t && minus[|minus| - 1] == t[|t| - 1];
    Trimmed(left, minus, right);
    SignedRead(s, n);
  }

  lemma DigitsAreGroups(t: string)
    requires t != [] && forall c | c in t :: Digit(c)
    ensures DigitGroups(t)
  {
    forall i | 0 <= i < |t| ensures Digit(t[i]) {
      assert t[i] in t;
    }
  }

  lemma PlainNumber(n: nat)
    ensures ParseInt(NumberText(n)) == Some(n)
  {
    assert "" + (NumberText(n) + "") == NumberText(n);
    NumberRead(NumberText(n), "", n, "");
  }

  /** The characters a number may be written with. */
  predicate NumberChar(c: char) {
    Digit(c) || c == '_' || c == '+' || c == '-' || NumberSpace(c)
  }

  lemma {:induction false} StripLeftKeeps(s: string, c: char)
    requires c in s && !NumberSpace(c)
    ensures c in StripLeft(s, NumberSpace)
  {
    if NumberSpace(s[0]) {
      StripLeftKeeps(s[1..], c);
    }
  }

  lemma {:induction false} StripRightKeeps(s: string, c: char)
    requires c in s && !NumberSpace(c)
    ensures c in StripRight(s, NumberSpace)
    decreases |s|
  {
    if NumberSpace(s[|s| - 1]) {
      assert s == s[..|s| - 1] + [s[|s| - 1]];
      StripRightKeeps(s[..|s| - 1], c);
    }
  }

  /** Anything else raises. */
  lemma ForeignCharacterRaises(s: string, c: char)
    requires c in s && !NumberChar(c)
    ensures ParseInt(s) == None
  {
    StripLeftKeeps(s, c);
    StripRightKeeps(StripLeft(s, NumberSpace), c);
    var t := StripRight(StripLeft(s, NumberSpace), NumberSpace);
    var body := if t != [] && (t[0] == '-' || t[0] == '+') then t[1..] else t;
    assert c in body;
    var i :| 0 <= i < |body| && body[i] == c;
    assert !DigitGroups(body);
  }

  // ---------------------------------------------------------------- parts

  /** The forms a part of a field is written in. */
  datatype Bounds = Any | One(value: nat) | Between(first: nat, last: nat)
  datatype Part = Part(bounds: Bounds, step: Option<nat>)

  function BoundsText(b: Bounds): string {
    match b
    case Any => "*"
    case One(v) => NumberText(v)
    case Between(a, z) => NumberText(a) + ['-'] + NumberText(z)
  }

  function PartText(p: Part): string {
    match p.step
    case None => BoundsText(p.bounds)
    case Some(n) => BoundsText(p.bounds) + ['/'] + NumberText(n)
  }

  /** The values a part stands for, in a field that ranges from `min` to `max`. */
  predicate Means(p: Part, min: int, max: int, v: int) {
    var step := if p.step.Some? then p.step.value else 1;
    && step > 0
    && match p.bounds
       case Any => min <= v <= max && (v - min) % step == 0
       case One(a) => v == a
       case Between(a, z) => a <= v <= z && (v - a) % step == 0
  }

  predicate WellFormed(p: Part) {
    p.step != Some(0)
  }

  lemma DigitsOnly(n: nat)
    ensures forall c | c in "-/,* " :: c !in NumberText(n)
    ensures NumberText(n) != "*"
  {
    var t := NumberText(n);
    assert t[0] in t;
  }

  lemma BoundsCharacters(b: Bounds)
    ensures '/' !in BoundsText(b) && ',' !in BoundsText(b) && BoundsText(b) != ""
    ensures forall c | c in BoundsText(b) :: !Space(c)
  {
    match b
    case Any =>
    case One(v) => DigitsOnly(v);
    case Between(a, z) =>
      DigitsOnly(a);
      DigitsOnly(z);
  }

  lemma PartCharacters(p: Part)
    ensures ',' !in PartText(p) && PartText(p) != "" && forall c | c in PartText(p) :: !Space(c)
  {
    BoundsCharacters(p.bounds);
    if p.step.Some? {
      DigitsOnly(p.step.value);
    }
  }

  function SpanOf(p: Part, min: int, max: int): Span
  {
    var step := if p.step.Some? then p.step.value else 1;
    match p.bounds
    case Any => Span(min, max, step)
    case One(v) => Span(v, v, step)
    case Between(a, z) => Span(a, z, step)
  }

  lemma TwoNumbersParse(text: string, x: string, y: string, a: int, z: int, min: int, max: int)
    requires '-' in text && text != "*" && Split(text, '-') == [x, y] && ParseInt(x) == Some(a) && ParseInt(y) == Some(z)
    ensures ParseBounds(text, min, max) == Some((a, z))
  {
  }

  lemma TwoPieces(text: string, x: string, y: string, sep: char)
    requires sep !in x && sep !in y && text == x + [sep] + y
    ensures Split(text, sep) == [x, y] && text[|x|] == sep
  {
    SplitFirst(x, y, sep);
    SplitFirst(y, "", sep);
  }

  lemma BetweenParses(a: nat, z: nat, min: int, max: int)
    ensures ParseBounds(NumberText(a) + ['-'] + NumberText(z), min, max) == Some((a as int, z as int))
  {
    var x, y := NumberText(a), NumberText(z);
    var text := x + ['-'] + y;
    DigitsOnly(a);
    DigitsOnly(z);
    PlainNumber(a);
    PlainNumber(z);
    TwoPieces(text, x, y, '-');
    assert text[|x|] in text && |text| > 1;
    TwoNumbersParse(text, x, y, a, z, min, max);
  }

  lemma OneParses(v: nat, min: int, max: int)
    ensures ParseBounds(NumberText(v), min, max) == Some((v as int, v as int))
  {
    DigitsOnly(v);
    PlainNumber(v);
  }

  lemma BoundsParse(b: Bounds, min: int, max: int)
    ensures ParseBounds(BoundsText(b), min, max)
         == Some(match b case Any => (min, max) case One(v) => (v as int, v as int) case Between(a, z) => (a as int, z as int))
  {
    match b
    case Any =>
    case One(v) => OneParses(v, min, max);
    case Between(a, z) => BetweenParses(a, z, min, max);
  }

  lemma SteppedParses(text: string, bounds: string, steps: string, a: int, z: int, step: int, min: int, max: int)
    requires Split(text, '/') == [bounds, steps] && ParseInt(steps) == Some(step) && ParseBounds(bounds, min, max) == Some((a, z))
    ensures ParsePart(text, min, max) == if step == 0 then None else Some(Span(a, z, step))
  {
  }

  lemma SteplessParses(text: string, a: int, z: int, min: int, max: int)
    requires Split(text, '/') == [text] && ParseBounds(text, min, max) == Some((a, z))
    ensures ParsePart(text, min, max) == Some(Span(a, z, 1))
  {
  }

  lemma PartParses(p: Part, min: int, max: int)
    ensures ParsePart(PartText(p), min, max) == if WellFormed(p) then Some(SpanOf(p, min, max)) else None
  {
    var text, span := BoundsText(p.bounds), SpanOf(p, min, max);
    BoundsCharacters(p.bounds);
    BoundsParse(p.bounds, min, max);
    match p.step
    case None =>
      SplitFirst(text, "", '/');
      SteplessParses(text, span.start, span.end, min, max);
    case Some(n) =>
      DigitsOnly(n);
      PlainNumber(n);
      TwoPieces(PartText(p), text, NumberText(n), '/');
      SteppedParses(PartText(p), text, NumberText(n), span.start, span.end, n, min, max);
  }

  /** A progression upwards holds the values whose distance from its start is a multiple of the step. */
  lemma SpanMeans(a: int, z: int, step: int, v: int)
    requires step > 0
    ensures InSpan(Span(a, z, step), v) <==> a <= v <= z && (v - a) % step == 0
  {
    var span := Span(a, z, step);
    if InSpan(span, v) {
      var j: nat :| Term(span, j) == v;
      MultipleOf(j, step);
    }
    if a <= v <= z && (v - a) % step == 0 {
      assert Term(span, (v - a) / step) == v;
    }
  }

  lemma MultipleOf(j: nat, step: int)
    requires step > 0
    ensures j * step >= 0 && (j * step) % step == 0
  {
    ProductRest(j, step);
  }

  lemma {:induction false} ProductRest(j: nat, step: int)
    requires step > 0
    ensures (j * step) % step == 0
  {
    if j > 0 {
      ProductRest(j - 1, step);
      assert j * step == (j - 1) * step + step;
      ShiftByStep((j - 1) * step, step);
    }
  }

  lemma ShiftByStep(x: int, step: int)
    requires step > 0 && x % step == 0
    ensures (x + step) % step == 0
  {
    assert x + step == (x / step + 1) * step;
    var q := x / step + 1;
    assert q * step == x + step && 0 <= x + step - q * step < step;
    Remainder(x + step, q, step);
  }

  lemma Remainder(x: int, q: int, step: int)
    requires step > 0 && x == q * step
    ensures x % step == 0
  {
    assert x == (x / step) * step + x % step;
    var d := q - x / step;
    assert d * step == x % step;
    assert d >= 1 ==> d * step >= step;
    assert d <= -1 ==> d * step <= -step;
  }

  lemma ZeroRest(step: int)
    requires step > 0
    ensures 0 % step == 0
  {
  }

  lemma MeansSpan(p: Part, min: int, max: int, v: int)
    requires WellFormed(p)
    ensures InSpan(SpanOf(p, min, max), v) <==> Means(p, min, max, v)
  {
    var span := SpanOf(p, min, max);
    SpanMeans(span.start, span.end, span.step, v);
    ZeroRest(span.step);
    match p.bounds
    case Any => assert span.start == min && span.end == max;
    case One(a) => assert a <= v <= a ==> v - a == 0;
    case Between(a, z) => assert span.start == a && span.end == z;
  }

  /** What a part of a field stands for. */
  lemma PartMeans(p: Part, min: int, max: int, v: int)
    ensures Allows(PartText(p), min, max, v) <==> Means(p, min, max, v)
  {
    PartParses(p, min, max);
    if WellFormed(p) {
      MeansSpan(p, min, max, v);
    }
  }

  // ---------------------------------------------------------------- fields

  function PartTexts(parts: seq<Part>): (r: seq<string>)
    ensures |r| == |parts| && forall i | 0 <= i < |parts| :: r[i] == PartText(parts[i])
  {
    if parts == [] then [] else [PartText(parts[0])] + PartTexts(parts[1..])
  }

  function FieldText(parts: seq<Part>): string {
    Join(PartTexts(parts), ',')
  }

  ghost predicate FieldAllows(parts: seq<Part>, min: int, max: int, v: int) {
    exists p :: p in parts && Means(p, min, max, v)
  }

  lemma FieldSplits(parts: seq<Part>)
    requires parts != []
    ensures Split(FieldText(parts), ',') == PartTexts(parts)
  {
    forall t | t in PartTexts(parts) ensures ',' !in t {
      var i :| 0 <= i < |parts| && PartTexts(parts)[i] == t;
      PartCharacters(parts[i]);
    }
    SplitJoin(PartTexts(parts), ',');
  }

  /** A field stands for what any of its parts stands for, and raises exactly when a step is zero. */
  lemma FieldMeans(parts: seq<Part>, min: int, max: int)
    requires parts != []
    ensures FieldValues(FieldText(parts), min, max).Some? <==> forall p | p in parts :: p.step != Some(0)
    ensures FieldValues(FieldText(parts), min, max).Some? ==>
              forall v :: v in FieldValues(FieldText(parts), min, max).value <==> FieldAllows(parts, min, max, v)
  {
    FieldIsUnion(FieldText(parts), min, max);
    FieldSplits(parts);
    forall i | 0 <= i < |parts| ensures PartTexts(parts)[i] in PartTexts(parts) {
    }
    if i :| 0 <= i < |parts| && parts[i].step == Some(0) {
      PartParses(parts[i], min, max);
      assert PartTexts(parts)[i] == PartText(parts[i]);
    }
    forall t | t in PartTexts(parts) ensures ParsePart(t, min, max).None? ==> exists p :: p in parts && p.step == Some(0) {
      var i :| 0 <= i < |parts| && PartTexts(parts)[i] == t;
      PartParses(parts[i], min, max);
      assert parts[i] in parts;
    }
    forall v ensures FieldAllows(parts, min, max, v) <==> exists t :: t in Split(FieldText(parts), ',') && Allows(t, min, max, v) {
      FieldAllowsTexts(parts, min, max, v);
    }
  }

  lemma FieldAllowsTexts(parts: seq<Part>, min: int, max: int, v: int)
    ensures FieldAllows(parts, min, max, v) <==> exists t :: t in PartTexts(parts) && Allows(t, min, max, v)
  {
    if p :| p in parts && Means(p, min, max, v) {
      var i :| 0 <= i < |parts| && parts[i] == p;
      PartMeans(p, min, max, v);
      assert PartTexts(parts)[i] in PartTexts(parts);
    }
    if t :| t in PartTexts(parts) && Allows(t, min, max, v) {
      var i :| 0 <= i < |parts| && PartTexts(parts)[i] == t;
      PartMeans(parts[i], min, max, v);
      assert parts[i] in parts;
    }
  }

  // ---------------------------------------------------------------- expressions

  /** The five fields of an expression. */
  datatype Expression = Expression(minutes: seq<Part>, hours: seq<Part>, days: seq<Part>, months: seq<Part>, weekdays: seq<Part>)

  ghost predicate Written(e: Expression) {
    && e.minutes != [] && e.hours != [] && e.days != [] && e.months != [] && e.weekdays != []
    && forall p | p in e.minutes + e.hours + e.days + e.months + e.weekdays :: p.step != Some(0)
  }

  function ExpressionText(e: Expression): string {
    FieldText(e.minutes) + ([' '] + (FieldText(e.hours) + ([' '] + (FieldText(e.days) + ([' ']
      + (FieldText(e.months) + ([' '] + FieldText(e.weekdays))))))))
  }

  lemma {:induction false} JoinedCharacters(pieces: seq<string>)
    requires pieces != [] && forall t | t in pieces :: t != "" && forall c | c in t :: !Space(c)
    ensures Join(pieces, ',') != "" && forall c | c in Join(pieces, ',') :: !Space(c)
  {
    assert pieces[0] in pieces;
    if |pieces| > 1 {
      assert forall t | t in pieces[1..] :: t in pieces;
      JoinedCharacters(pieces[1..]);
    }
  }

  lemma FieldCharacters(parts: seq<Part>)
    requires parts != []
    ensures FieldText(parts) != "" && forall c | c in FieldText(parts) :: !Space(c)
  {
    forall t | t in PartTexts(parts) ensures t != "" && forall c | c in t :: !Space(c) {
      var i :| 0 <= i < |parts| && PartTexts(parts)[i] == t;
      PartCharacters(parts[i]);
    }
    JoinedCharacters(PartTexts(parts));
  }

  lemma {:induction false} WordLengthIs(w: string, rest: string)
    requires (forall c | c in w :: !Space(c)) && (rest == "" || Space(rest[0]))
    ensures WordLength(w + rest) == |w|
  {
    if w == "" {
      assert w + rest == rest;
    } else {
      assert w[0] in w && forall c | c in w[1..] :: c in w;
      assert (w + rest)[1..] == w[1..] + rest;
      WordLengthIs(w[1..], rest);
    }
  }

  lemma WordFirst(w: string, rest: string)
    requires w != "" && forall c | c in w :: !Space(c)
    ensures Words(w + ([' '] + rest)) == [w] + Words(rest) && Words(w) == [w]
  {
    var s, tail := w + ([' '] + rest), [' '] + rest;
    assert w[0] in w && s[0] == w[0];
    WordLengthIs(w, tail);
    assert s[..|w|] == w && s[|w|..] == tail && tail[1..] == rest;
    WordLengthIs(w, "");
    assert w + "" == w && w[..|w|] == w && w[|w|..] == "";
  }

  /** A word: not empty, without white space. */
  ghost predicate Solid(w: string) {
    w != "" && forall c | c in w :: !Space(c)
  }

  lemma WordThenRest(w: string, rest: string, words: seq<string>)
    requires Solid(w) && Words(rest) == words
    ensures Words(w + ([' '] + rest)) == [w] + words
  {
    WordFirst(w, rest);
  }

  lemma TwoWords(a: string, b: string)
    requires Solid(a) && Solid(b)
    ensures Words(a + ([' '] + b)) == [a, b]
  {
    WordFirst(b, "");
    WordThenRest(a, b, [b]);
  }

  lemma FiveWords(a: string, b: string, c: string, d: string, e: string)
    requires Solid(a) && Solid(b) && Solid(c) && Solid(d) && Solid(e)
    ensures Words(a + ([' '] + (b + ([' '] + (c + ([' '] + (d + ([' '] + e)))))))) == [a, b, c, d, e]
  {
    var last := d + ([' '] + e);
    TwoWords(d, e);
    WordThenRest(c, last, [d, e]);
    assert [c] + [d, e] == [c, d, e];
    WordThenRest(b, c + ([' '] + last), [c, d, e]);
    assert [b] + [c, d, e] == [b, c, d, e];
    WordThenRest(a, b + ([' '] + (c + ([' '] + last))), [b, c, d, e]);
    assert [a] + [b, c, d, e] == [a, b, c, d, e];
  }

  lemma ExpressionWords(e: Expression)
    requires Written(e)
    ensures Words(ExpressionText(e))
         == [FieldText(e.minutes), FieldText(e.hours), FieldText(e.days), FieldText(e.months), FieldText(e.weekdays)]
  {
    FieldCharacters(e.minutes);
    FieldCharacters(e.hours);
    FieldCharacters(e.days);
    FieldCharacters(e.months);
    FieldCharacters(e.weekdays);
    FiveWords(FieldText(e.minutes), FieldText(e.hours), FieldText(e.days), FieldText(e.months), FieldText(e.weekdays));
  }

  /** Days counted from Sunday as 0: Monday is 1, Saturday 6. */
  function FromSunday(d: Date): (n: int)
    ensures 0 <= n < 7
  {
    if Weekday(d) == 6 then 0 else Weekday(d) + 1
  }

  /** The minute is one the expression names: its minute, hour, day, month and weekday, Sunday being 0 and 7. */
  ghost predicate Names(e: Expression, m: Minute) {
    && FieldAllows(e.minutes, 0, 59, m.clock % 60)
    && FieldAllows(e.hours, 0, 23, m.clock / 60)
    && FieldAllows(e.days, 1, 31, m.date.day)
    && FieldAllows(e.months, 1, 12, m.date.month)
    && (FieldAllows(e.weekdays, 0, 7, FromSunday(m.date)) || (FromSunday(m.date) == 0 && FieldAllows(e.weekdays, 0, 7, 7)))
  }

  /** The sets hold what the fields of the expression allow. */
  ghost predicate Reads(f: Fields, e: Expression) {
    && (forall v :: v in f.minutes <==> FieldAllows(e.minutes, 0, 59, v))
    && (forall v :: v in f.hours <==> FieldAllows(e.hours, 0, 23, v))
    && (forall v :: v in f.days <==> FieldAllows(e.days, 1, 31, v))
    && (forall v :: v in f.months <==> FieldAllows(e.months, 1, 12, v))
    && (forall v :: v in f.weekdays <==> FieldAllows(e.weekdays, 0, 7, v) || (v == 0 && FieldAllows(e.weekdays, 0, 7, 7)))
  }

  lemma ExpressionParses(e: Expression)
    requires Written(e)
    ensures ParseFields(ExpressionText(e)).Some? && Reads(ParseFields(ExpressionText(e)).value, e)
  {
    ExpressionWords(e);
    FieldMeans(e.minutes, 0, 59);
    FieldMeans(e.hours, 0, 23);
    FieldMeans(e.days, 1, 31);
    FieldMeans(e.months, 1, 12);
    FieldMeans(e.weekdays, 0, 7);
  }

  lemma ReadsMatches(f: Fields, e: Expression, m: Minute)
    requires Reads(f, e)
    ensures Matches(f, m) <==> Names(e, m)
  {
    assert (Weekday(m.date) + 1) % 7 == FromSunday(m.date);
  }

  /** An expression is parsed, and a minute matches it exactly when the expression names that minute. */
  lemma ExpressionMeans(e: Expression, m: Minute)
    requires Written(e)
    ensures ParseFields(ExpressionText(e)).Some?
    ensures Matches(ParseFields(ExpressionText(e)).value, m) <==> Names(e, m)
  {
    ExpressionParses(e);
    ReadsMatches(ParseFields(ExpressionText(e)).value, e, m);
  }

  /** What the search for an expression comes to: the earliest minute after the base that the expression names. */
  lemma NextIsTheEarliestNamed(e: Expression, base: Minute, r: Result<Minute, CronError>)
    requires Written(e) && ValidMinute(base) && IsOutcome(ParseFields(ExpressionText(e)), base, r) && r.Ok?
    ensures ValidMinute(r.value) && Names(e, r.value) && MinuteNumber(base) < MinuteNumber(r.value)
    ensures forall m | ValidMinute(m) && Names(e, m) && MinuteNumber(base) < MinuteNumber(m) ::
              MinuteNumber(r.value) <= MinuteNumber(m)
  {
    ExpressionParses(e);
    var f := ParseFields(ExpressionText(e)).value;
    FindsTheEarliest(f, base, r);
    ReadsMatches(f, e, r.value);
    forall m | ValidMinute(m) && Names(e, m) && MinuteNumber(base) < MinuteNumber(m)
      ensures MinuteNumber(r.value) <= MinuteNumber(m)
    {
      ReadsMatches(f, e, m);
    }
  }
}
