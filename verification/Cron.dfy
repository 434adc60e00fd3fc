/** Cron expressions: parsing a field, and searching for the next matching minute. */
module Cron {
  import opened Prelude
  import opened Texts
  import opened Calendar

  /** How many minutes the search looks at. */
  const WINDOW := 100000

  datatype CronError = OutOfRange | BadExpression | NoRunInWindow

  // ---------------------------------------------------------------- arithmetic progressions

  /** What one part of a field says: `range(start, end + 1, step)`. */
  datatype Span = Span(start: int, end: int, step: int)

  function Term(span: Span, j: nat): int {
    span.start + j * span.step
  }

  /** `v` is before the end of the span, seen in the direction of its step. */
  predicate Before(span: Span, v: int) {
    if span.step > 0 then v <= span.end else v > span.end + 1
  }

  /** `v` is a term of the arithmetic progression. */
  ghost predicate InSpan(span: Span, v: int) {
    Before(span, v) && exists j: nat :: Term(span, j) == v
  }

  /** The library's `range`. */
  function Range(start: int, stop: int, step: int): seq<int>
    requires step != 0
    decreases if step > 0 then stop - start else start - stop
  {
    if (step > 0 && start >= stop) || (step < 0 && start <= stop) then []
    else [start] + Range(start + step, stop, step)
  }

  function SpanValues(span: Span): set<int>
    requires span.step != 0
  {
    var values := Range(span.start, span.end + 1, span.step);
    set v | v in values
  }

  lemma {:induction false} RangeIsSpan(span: Span, v: int)
    requires span.step != 0
    ensures v in Range(span.start, span.end + 1, span.step) <==> InSpan(span, v)
    decreases if span.step > 0 then span.end + 1 - span.start else span.start - span.end - 1
  {
    var later := span.(start := span.start + span.step);
    if Before(span, span.start) {
      RangeIsSpan(later, v);
      SpanSteps(span, v);
    } else {
      TermsMoveOn(span, v);
    }
  }

  /** A progression is its first term and the progression from the second one. */
  lemma SpanSteps(span: Span, v: int)
    requires span.step != 0 && Before(span, span.start)
    ensures InSpan(span, v) <==> v == span.start || InSpan(span.(start := span.start + span.step), v)
  {
    var later := span.(start := span.start + span.step);
    if j: nat :| Term(span, j) == v {
      if j > 0 {
        NextTerm(span, j - 1);
        assert Term(later, j - 1) == v;
      }
    }
    if j: nat :| Term(later, j) == v {
      NextTerm(span, j);
      assert Term(span, j + 1) == v;
    }
    assert Term(span, 0) == span.start;
  }

  lemma NextTerm(span: Span, j: nat)
    ensures Term(span, j + 1) == Term(span.(start := span.start + span.step), j)
  {
  }

  /** A progression that starts past its end is empty. */
  lemma TermsMoveOn(span: Span, v: int)
    requires span.step != 0 && !Before(span, span.start)
    ensures !InSpan(span, v)
  {
    forall j: nat ensures !Before(span, Term(span, j)) {
      if span.step > 0 {
        assert j * span.step >= 0;
      } else {
        assert j * span.step <= 0;
      }
    }
  }

  // ---------------------------------------------------------------- parsing a field

  function ParseBounds(text: string, min: int, max: int): Option<(int, int)> {
    if text == "*" then Some((min, max))
    else if '-' in text then
      var pieces := Split(text, '-');
      if |pieces| != 2 then None
      else match (ParseInt(pieces[0]), ParseInt(pieces[1]))
           case (Some(a), Some(b)) => Some((a, b))
           case _ => None
    else match ParseInt(text)
         case Some(v) => Some((v, v))
         case None => None
  }

  /** One part of a field; nothing when it raises ValueError. */
  function ParsePart(part: string, min: int, max: int): (r: Option<Span>)
    ensures r.Some? ==> r.value.step != 0
  {
    var pieces := Split(part, '/');
    if |pieces| > 2 then None
    else match (if |pieces| == 2 then ParseInt(pieces[1]) else Some(1), ParseBounds(pieces[0], min, max))
         case (Some(step), Some((a, b))) => if step == 0 then None else Some(Span(a, b, step))
         case _ => None
  }

  ghost predicate Allows(part: string, min: int, max: int, v: int) {
    ParsePart(part, min, max).Some? && InSpan(ParsePart(part, min, max).value, v)
  }

  function PartsValues(parts: seq<string>, min: int, max: int): Option<set<int>> {
    if parts == [] then Some({})
    else
      var last := |parts| - 1;
      match (PartsValues(parts[..last], min, max), ParsePart(parts[last], min, max))
      case (Some(values), Some(span)) => Some(values + SpanValues(span))
      case _ => None
  }

  lemma PartsSnoc(parts: seq<string>, p: string, min: int, max: int)
    ensures PartsValues(parts + [p], min, max)
         == if PartsValues(parts, min, max).Some? && ParsePart(p, min, max).Some?
            then Some(PartsValues(parts, min, max).value + SpanValues(ParsePart(p, min, max).value)) else None
  {
    assert (parts + [p])[..|parts|] == parts;
  }

  function FieldValues(field: string, min: int, max: int): Option<set<int>> {
    PartsValues(Split(field, ','), min, max)
  }

  ghost predicate Malformed(parts: seq<string>, min: int, max: int) {
    exists p :: p in parts && ParsePart(p, min, max).None?
  }

  ghost predicate Allowed(parts: seq<string>, min: int, max: int, v: int) {
    exists p :: p in parts && Allows(p, min, max, v)
  }

  lemma MalformedSnoc(parts: seq<string>, p: string, min: int, max: int)
    ensures Malformed(parts + [p], min, max) <==> Malformed(parts, min, max) || ParsePart(p, min, max).None?
  {
    assert p in parts + [p];
  }

  lemma AllowedSnoc(parts: seq<string>, p: string, min: int, max: int, v: int)
    ensures Allowed(parts + [p], min, max, v) <==> Allowed(parts, min, max, v) || Allows(p, min, max, v)
  {
    assert p in parts + [p];
  }

  lemma {:induction false} PartsMalformed(parts: seq<string>, min: int, max: int)
    ensures PartsValues(parts, min, max).None? <==> Malformed(parts, min, max)
  {
    if parts != [] {
      var last := |parts| - 1;
      PartsMalformed(parts[..last], min, max);
      assert parts == parts[..last] + [parts[last]];
      MalformedSnoc(parts[..last], parts[last], min, max);
    }
  }

  lemma SpanMembers(span: Span, v: int)
    requires span.step != 0
    ensures v in SpanValues(span) <==> InSpan(span, v)
  {
    RangeIsSpan(span, v);
  }

  lemma {:induction false} PartsAllow(parts: seq<string>, min: int, max: int, v: int)
    ensures PartsValues(parts, min, max).Some? ==> (v in PartsValues(parts, min, max).value <==> Allowed(parts, min, max, v))
  {
    if parts != [] {
      var front, p := parts[..|parts| - 1], parts[|parts| - 1];
      assert parts == front + [p];
      PartsAllow(front, min, max, v);
      OnePartMore(front, p, min, max, v);
    }
  }

  lemma OnePartMore(parts: seq<string>, p: string, min: int, max: int, v: int)
    requires PartsValues(parts, min, max).Some? ==> (v in PartsValues(parts, min, max).value <==> Allowed(parts, min, max, v))
    ensures PartsValues(parts + [p], min, max).Some? ==>
              (v in PartsValues(parts + [p], min, max).value <==> Allowed(parts + [p], min, max, v))
  {
    PartsSnoc(parts, p, min, max);
    AllowedSnoc(parts, p, min, max, v);
    if ParsePart(p, min, max).Some? {
      SpanMembers(ParsePart(p, min, max).value, v);
    }
  }

  /** A field means the union of its parts' progressions; one malformed part spoils it. */
  lemma FieldIsUnion(field: string, min: int, max: int)
    ensures FieldValues(field, min, max).None? <==> exists p :: p in Split(field, ',') && ParsePart(p, min, max).None?
    ensures FieldValues(field, min, max).Some? ==>
              forall v :: v in FieldValues(field, min, max).value <==> exists p :: p in Split(field, ',') && Allows(p, min, max, v)
  {
    PartsMalformed(Split(field, ','), min, max);
    forall v ensures FieldValues(field, min, max).Some? ==>
                       (v in FieldValues(field, min, max).value <==> Allowed(Split(field, ','), min, max, v)) {
      PartsAllow(Split(field, ','), min, max, v);
    }
  }

  /** A progression stays between its bounds. */
  lemma SpanInside(span: Span, min: int, max: int, v: int)
    requires span.step != 0 && min <= span.start <= max && min <= span.end <= max && InSpan(span, v)
    ensures min <= v <= max
  {
    var j: nat :| Term(span, j) == v;
    if span.step > 0 {
      assert j * span.step >= 0;
    } else {
      assert j * span.step <= 0;
    }
  }

  /** When every bound written is inside `[min, max]`, so is every value. */
  lemma FieldInside(field: string, min: int, max: int)
    requires FieldValues(field, min, max).Some?
    requires forall p | p in Split(field, ',') && ParsePart(p, min, max).Some? ::
               min <= ParsePart(p, min, max).value.start <= max && min <= ParsePart(p, min, max).value.end <= max
    ensures forall v | v in FieldValues(field, min, max).value :: min <= v <= max
  {
    FieldIsUnion(field, min, max);
    forall v | v in FieldValues(field, min, max).value ensures min <= v <= max {
      var p :| p in Split(field, ',') && Allows(p, min, max, v);
      SpanInside(ParsePart(p, min, max).value, min, max, v);
    }
  }

  /** `*` means every value. */
  lemma StarIsEverything(min: int, max: int)
    ensures FieldValues("*", min, max) == Some(SpanValues(Span(min, max, 1)))
    ensures forall v :: v in SpanValues(Span(min, max, 1)) <==> min <= v <= max
  {
    SplitFirst("*", "", ',');
    SplitFirst("*", "", '/');
    var span := Span(min, max, 1);
    assert [] + ["*"] == ["*"];
    PartsSnoc([], "*", min, max);
    assert {} + SpanValues(span) == SpanValues(span);
    forall v ensures v in SpanValues(span) <==> min <= v <= max {
      RangeIsSpan(span, v);
      if min <= v <= max {
        assert Term(span, v - min) == v;
      }
    }
  }

  lemma MalformedSpoils(parts: seq<string>, i: nat, min: int, max: int)
    requires i < |parts| && ParsePart(parts[i], min, max).None?
    ensures PartsValues(parts, min, max).None?
  {
    PartsMalformed(parts, min, max);
    assert parts[i] in parts;
  }

  method ParseCronField(field: string, min: int, max: int) returns (r: Option<set<int>>)
    ensures r == FieldValues(field, min, max)
  {
    if field == "*" {
      StarIsEverything(min, max);
      return Some(SpanValues(Span(min, max, 1)));
    }
    var values := {};
    var parts := Split(field, ',');
    for i := 0 to |parts|
      invariant PartsValues(parts[..i], min, max) == Some(values)
    {
      PrefixStep(parts, i);
      PartsSnoc(parts[..i], parts[i], min, max);
      match ParsePart(parts[i], min, max)
      case None =>
        MalformedSpoils(parts, i, min, max);
        return None;
      case Some(span) =>
        values := values + SpanValues(span);
    }
    assert parts[..|parts|] == parts;
    return Some(values);
  }

  // ---------------------------------------------------------------- the search

  datatype Fields = Fields(minutes: set<int>, hours: set<int>, days: set<int>, months: set<int>, weekdays: set<int>)

  /** In the weekday field 7 is another name for Sunday. */
  function SevenIsSunday(weekdays: set<int>): set<int> {
    if 7 in weekdays then weekdays + {0} else weekdays
  }

  function ParseFields(expression: string): Option<Fields> {
    var w := Words(expression);
    if |w| != 5 then None
    else match (FieldValues(w[0], 0, 59), FieldValues(w[1], 0, 23), FieldValues(w[2], 1, 31),
                FieldValues(w[3], 1, 12), FieldValues(w[4], 0, 7))
         case (Some(minutes), Some(hours), Some(days), Some(months), Some(weekdays)) =>
           Some(Fields(minutes, hours, days, months, SevenIsSunday(weekdays)))
         case _ => None
  }

  predicate Matches(f: Fields, m: Minute) {
    && m.clock % 60 in f.minutes
    && m.clock / 60 in f.hours
    && m.date.day in f.days
    && m.date.month in f.months
    && (Weekday(m.date) + 1) % 7 in f.weekdays
  }

  /** The first `n` minutes after `base` are on the calendar and none matches. */
  ghost predicate Quiet(f: Fields, base: Minute, n: nat)
    requires ValidMinute(base)
  {
    forall k | 1 <= k <= n :: MinutesLater(base, k).date.year <= MAX_YEAR && !Matches(f, MinutesLater(base, k))
  }

  /** The search ends after `n` minutes in vain: at a match, at the end of the calendar or of the window. */
  ghost predicate EndsAt(f: Fields, base: Minute, n: nat, r: Result<Minute, CronError>)
    requires ValidMinute(base)
  {
    && n <= WINDOW && Quiet(f, base, n)
    && var next := MinutesLater(base, n + 1);
      if next.date.year > MAX_YEAR then r == Err(OutOfRange)
      else if n == WINDOW then r == Err(NoRunInWindow)
      else Matches(f, next) && r == Ok(next)
  }

  /** What the search for the next run after the minute `base` comes to, for an expression that parsed to `parsed`. */
  ghost predicate IsOutcome(parsed: Option<Fields>, base: Minute, r: Result<Minute, CronError>)
    requires ValidMinute(base)
  {
    match parsed
    case None => r == Err(if NextMinute(base).date.year > MAX_YEAR then OutOfRange else BadExpression)
    case Some(f) => exists n: nat :: EndsAt(f, base, n, r)
  }

  lemma QuietGrows(f: Fields, base: Minute, n: nat)
    requires ValidMinute(base) && Quiet(f, base, n)
    requires MinutesLater(base, n + 1).date.year <= MAX_YEAR && !Matches(f, MinutesLater(base, n + 1))
    ensures Quiet(f, base, n + 1)
  {
  }

  lemma MinutesLaterOne(m: Minute)
    requires ValidMinute(m)
    ensures MinutesLater(m, 1) == NextMinute(m)
  {
    assert MinutesLater(m, 0) == m;
  }

  lemma OffCalendarAtOnce(parsed: Option<Fields>, base: Minute)
    requires ValidMinute(base) && NextMinute(base).date.year > MAX_YEAR
    ensures IsOutcome(parsed, base, Err(OutOfRange))
  {
    MinutesLaterOne(base);
    if parsed.Some? {
      assert EndsAt(parsed.value, base, 0, Err(OutOfRange));
    }
  }

  lemma Concludes(f: Fields, base: Minute, n: nat, next: Minute, r: Result<Minute, CronError>)
    requires ValidMinute(base) && n <= WINDOW && Quiet(f, base, n) && next == MinutesLater(base, n + 1)
    requires if next.date.year > MAX_YEAR then r == Err(OutOfRange)
             else if n == WINDOW then r == Err(NoRunInWindow)
             else Matches(f, next) && r == Ok(next)
    ensures IsOutcome(Some(f), base, r)
  {
    assert EndsAt(f, base, n, r);
  }

  method GetNextCronTime(expression: string, base: Minute) returns (r: Result<Minute, CronError>)
    requires ValidMinute(base)
    ensures IsOutcome(ParseFields(expression), base, r)
  {
    if NextMinute(base).date.year > MAX_YEAR {
      OffCalendarAtOnce(ParseFields(expression), base);
      return Err(OutOfRange);
    }
    var parsed := ReadFields(expression);
    if parsed.None? {
      return Err(BadExpression);
    }
    r := Search(parsed.value, base);
  }

  /** The loop over the window. */
  method Search(fields: Fields, base: Minute) returns (r: Result<Minute, CronError>)
    requires ValidMinute(base) && NextMinute(base).date.year <= MAX_YEAR
    ensures IsOutcome(Some(fields), base, r)
  {
    var current := NextMinute(base);
    MinutesLaterOne(base);
    for k := 0 to WINDOW
      invariant current == MinutesLater(base, k + 1) && current.date.year <= MAX_YEAR
      invariant Quiet(fields, base, k)
    {
      if Matches(fields, current) {
        Concludes(fields, base, k, current, Ok(current));
        return Ok(current);
      }
      QuietGrows(fields, base, k);
      current := NextMinute(current);
      if current.date.year > MAX_YEAR {
        Concludes(fields, base, k + 1, current, Err(OutOfRange));
        return Err(OutOfRange);
      }
    }
    Concludes(fields, base, WINDOW, current, Err(NoRunInWindow));
    return Err(NoRunInWindow);
  }

  method ReadFields(expression: string) returns (r: Option<Fields>)
    ensures r == ParseFields(expression)
  {
    var words := Words(expression);
    if |words| != 5 {
      return None;
    }
    var minutes := ParseCronField(words[0], 0, 59);
    var hours := ParseCronField(words[1], 0, 23);
    var days := ParseCronField(words[2], 1, 31);
    var months := ParseCronField(words[3], 1, 12);
    var weekdays := ParseCronField(words[4], 0, 7);
    if minutes.None? || hours.None? || days.None? || months.None? || weekdays.None? {
      return None;
    }
    var dow := weekdays.value;
    if 7 in dow {
      dow := dow + {0};
    }
    return Some(Fields(minutes.value, hours.value, days.value, months.value, dow));
  }

  // ---------------------------------------------------------------- what the search guarantees

  lemma {:induction false} YearsGrow(m: Minute, a: nat, b: nat)
    requires ValidMinute(m) && a <= b
    ensures MinutesLater(m, a).date.year <= MinutesLater(m, b).date.year
    decreases b
  {
    if a < b {
      YearsGrow(m, a, b - 1);
    }
  }

  lemma EndsOnce(f: Fields, base: Minute, n: nat, r: Result<Minute, CronError>, m: nat, s: Result<Minute, CronError>)
    requires ValidMinute(base) && EndsAt(f, base, n, r) && EndsAt(f, base, m, s)
    ensures n >= m
  {
  }

  lemma EndsTheSame(f: Fields, base: Minute, n: nat, r: Result<Minute, CronError>, s: Result<Minute, CronError>)
    requires ValidMinute(base) && EndsAt(f, base, n, r) && EndsAt(f, base, n, s)
    ensures r == s
  {
  }

  /** The expression and the base time decide the outcome. */
  lemma OutcomeUnique(parsed: Option<Fields>, base: Minute, r: Result<Minute, CronError>, s: Result<Minute, CronError>)
    requires ValidMinute(base) && IsOutcome(parsed, base, r) && IsOutcome(parsed, base, s)
    ensures r == s
  {
    if parsed.Some? {
      var f := parsed.value;
      var n: nat :| EndsAt(f, base, n, r);
      var m: nat :| EndsAt(f, base, m, s);
      EndsOnce(f, base, n, r, m, s);
      EndsOnce(f, base, m, s, n, r);
      EndsTheSame(f, base, n, r, s);
    }
  }

  /** Away from the end of the calendar the search ends in a match, or in a window without one. */
  lemma EndsInsideCalendar(f: Fields, base: Minute, n: nat, r: Result<Minute, CronError>)
    requires ValidMinute(base) && EndsAt(f, base, n, r) && MinutesLater(base, WINDOW + 1).date.year <= MAX_YEAR
    ensures if r.Ok? then n < WINDOW && Matches(f, MinutesLater(base, n + 1)) else r == Err(NoRunInWindow) && Quiet(f, base, WINDOW)
  {
    YearsGrow(base, n + 1, WINDOW + 1);
  }

  /** It leaves the calendar only when the window does, after the year 9999; what it finds is on the calendar. */
  lemma LeavesCalendarAtItsEnd(parsed: Option<Fields>, base: Minute, r: Result<Minute, CronError>)
    requires ValidMinute(base) && IsOutcome(parsed, base, r)
    ensures r == Err(OutOfRange) ==> MinutesLater(base, 100001).date.year > 9999
    ensures r.Ok? ==> r.value.date.year <= 9999
  {
    match parsed
    case None =>
      MinutesLaterOne(base);
      YearsGrow(base, 1, 100001);
    case Some(f) =>
      var n: nat :| EndsAt(f, base, n, r);
      YearsGrow(base, n + 1, 100001);
  }

  /** None of the next 100,000 minutes matches. */
  ghost predicate NothingMatches(f: Fields, base: Minute)
    requires ValidMinute(base)
  {
    forall k | 1 <= k <= 100000 :: !Matches(f, MinutesLater(base, k))
  }

  /** On a well-formed expression, away from the end of the calendar, it raises exactly when nothing in the window matches. */
  lemma RaisesIffNoMatch(f: Fields, base: Minute, r: Result<Minute, CronError>)
    requires ValidMinute(base) && IsOutcome(Some(f), base, r)
    requires MinutesLater(base, WINDOW + 1).date.year <= MAX_YEAR
    ensures r.Err? <==> NothingMatches(f, base)
    ensures r.Err? ==> r == Err(NoRunInWindow)
  {
    var n: nat :| EndsAt(f, base, n, r);
    EndsInsideCalendar(f, base, n, r);
  }

  lemma NoLaterThanMatch(f: Fields, base: Minute, m: nat, r: Result<Minute, CronError>, k: nat)
    requires ValidMinute(base) && EndsAt(f, base, m, r)
    requires 1 <= k <= WINDOW && Matches(f, MinutesLater(base, k)) && MinutesLater(base, k).date.year <= MAX_YEAR
    ensures m < k && r == Ok(MinutesLater(base, m + 1))
  {
    assert m < k;
    YearsGrow(base, m + 1, k);
  }

  /** A match within the window is found, no later than that. */
  lemma FoundBy(f: Fields, base: Minute, r: Result<Minute, CronError>, k: nat) returns (n: nat)
    requires ValidMinute(base) && IsOutcome(Some(f), base, r)
    requires 1 <= k <= WINDOW && Matches(f, MinutesLater(base, k)) && MinutesLater(base, k).date.year <= MAX_YEAR
    ensures r.Ok? && 1 <= n <= k && r.value == MinutesLater(base, n)
  {
    var m: nat :| EndsAt(f, base, m, r);
    NoLaterThanMatch(f, base, m, r, k);
    n := m + 1;
  }

  // ---------------------------------------------------------------- how soon the next run is

  /** `n` days later, at clock time `t`. */
  lemma AtClock(base: Minute, n: nat, t: nat) returns (k: nat)
    requires ValidMinute(base) && t < MINUTES_A_DAY && (n > 0 || t > base.clock)
    ensures k == n * MINUTES_A_DAY + t - base.clock >= 1
    ensures MinutesLater(base, k) == Minute(DaysLater(base.date, n), t)
  {
    k := n * MINUTES_A_DAY + t - base.clock;
    MinutesAsDays(base, k);
  }

  /** Some minute of the day matches. */
  lemma ClockTime(f: Fields) returns (t: nat)
    requires (exists v :: 0 <= v < 60 && v in f.minutes) && (exists v :: 0 <= v < 24 && v in f.hours)
    ensures t < MINUTES_A_DAY && t % 60 in f.minutes && t / 60 in f.hours
  {
    var minute :| 0 <= minute < 60 && minute in f.minutes;
    var hour :| 0 <= hour < 24 && hour in f.hours;
    t := hour * 60 + minute;
  }

  /**
   With every month and weekday allowed, and some minute, hour and day in range, a matching minute
   comes at most 61 days after the base: no two months in a row lack a day.
   */
  lemma RunWithin61Days(f: Fields, base: Minute) returns (k: nat)
    requires ValidMinute(base)
    requires (exists v :: 0 <= v < 60 && v in f.minutes) && (exists v :: 0 <= v < 24 && v in f.hours)
    requires exists v :: 1 <= v <= 31 && v in f.days
    requires (forall v | 1 <= v <= 12 :: v in f.months) && (forall v | 0 <= v < 7 :: v in f.weekdays)
    ensures 1 <= k <= 61 * MINUTES_A_DAY && Matches(f, MinutesLater(base, k))
  {
    var t := ClockTime(f);
    var day :| 1 <= day <= 31 && day in f.days;
    if base.date.day == day && t > base.clock {
      assert DaysLater(base.date, 0) == base.date;
      k := AtClock(base, 0, t);
    } else {
      var n := DayComesRound(base.date, day);
      k := AtClock(base, n, t);
    }
  }

  /** Cron counts weekdays from Sunday, the calendar from Monday. */
  lemma DayBefore(v: int) returns (w: int)
    requires 0 <= v < 7
    ensures 0 <= w < 7 && (w + 1) % 7 == v
  {
    w := if v == 0 then 6 else v - 1;
  }

  /** With every month and day of the month allowed, a matching minute comes within a week. */
  lemma RunWithinAWeek(f: Fields, base: Minute) returns (k: nat)
    requires ValidMinute(base)
    requires (exists v :: 0 <= v < 60 && v in f.minutes) && (exists v :: 0 <= v < 24 && v in f.hours)
    requires exists v :: 0 <= v < 7 && v in f.weekdays
    requires (forall v | 1 <= v <= 12 :: v in f.months) && (forall v | 1 <= v <= 31 :: v in f.days)
    ensures 1 <= k <= 7 * MINUTES_A_DAY && Matches(f, MinutesLater(base, k))
  {
    var t := ClockTime(f);
    var v :| 0 <= v < 7 && v in f.weekdays;
    var w := DayBefore(v);
    if Weekday(base.date) == w && t > base.clock {
      assert DaysLater(base.date, 0) == base.date;
      k := AtClock(base, 0, t);
    } else {
      var n := WeekdayComesRound(base.date, w);
      k := AtClock(base, n, t);
    }
  }

  /** With `*` for month and weekday the search always succeeds, at most 87,840 minutes after the base. */
  lemma StarMonthAndWeekdaySucceeds(expression: string, f: Fields, base: Minute, r: Result<Minute, CronError>) returns (n: nat)
    requires ValidMinute(base) && ParseFields(expression) == Some(f) && IsOutcome(Some(f), base, r)
    requires Words(expression)[3] == "*" && Words(expression)[4] == "*"
    requires (exists v :: 0 <= v < 60 && v in f.minutes) && (exists v :: 0 <= v < 24 && v in f.hours)
    requires exists v :: 1 <= v <= 31 && v in f.days
    requires MinutesLater(base, 87840).date.year <= MAX_YEAR
    ensures r.Ok? && 1 <= n <= 87840 && r.value == MinutesLater(base, n)
  {
    StarsAllowAll(expression, f);
    n := AnyMonthAndWeekdaySucceeds(f, base, r);
  }

  lemma StarsAllowAll(expression: string, f: Fields)
    requires ParseFields(expression) == Some(f) && Words(expression)[3] == "*" && Words(expression)[4] == "*"
    ensures (forall v | 1 <= v <= 12 :: v in f.months) && (forall v | 0 <= v < 7 :: v in f.weekdays)
  {
    StarIsEverything(1, 12);
    StarIsEverything(0, 7);
  }

  lemma AnyMonthAndWeekdaySucceeds(f: Fields, base: Minute, r: Result<Minute, CronError>) returns (n: nat)
    requires ValidMinute(base) && IsOutcome(Some(f), base, r)
    requires (exists v :: 0 <= v < 60 && v in f.minutes) && (exists v :: 0 <= v < 24 && v in f.hours)
    requires exists v :: 1 <= v <= 31 && v in f.days
    requires (forall v | 1 <= v <= 12 :: v in f.months) && (forall v | 0 <= v < 7 :: v in f.weekdays)
    requires MinutesLater(base, 87840).date.year <= MAX_YEAR
    ensures r.Ok? && 1 <= n <= 87840 && r.value == MinutesLater(base, n)
  {
    var k := RunWithin61Days(f, base);
    YearsGrow(base, k, 87840);
    n := FoundBy(f, base, r, k);
  }

  /** The days from the 31st of March on. */
  lemma SpringDay(year: int, n: nat)
    requires 1 <= year && 1 <= n <= 61
    ensures DaysLater(Date(year, 3, 31), n) == if n <= 30 then Date(year, 4, n) else Date(year, 5, n - 30)
  {
    DaysToNextMonth(Date(year, 3, 31), 0);
    if n <= 30 {
      DaysCompose(Date(year, 3, 31), 1, n - 1);
      DaysInMonth(Date(year, 4, 1), n - 1);
    } else {
      DaysToNextMonth(Date(year, 4, 1), 29);
      DaysCompose(Date(year, 3, 31), 1, 30);
      DaysCompose(Date(year, 3, 31), 31, n - 31);
      DaysInMonth(Date(year, 5, 1), n - 31);
    }
  }

  lemma LastMinuteOfDay(k: nat)
    requires (1439 + k) % MINUTES_A_DAY == 1439
    ensures k == ((1439 + k) / MINUTES_A_DAY) * MINUTES_A_DAY
  {
  }

  /** In the 61 days from the 31st of March the last minute of a 31st comes only at the end. */
  lemma NoThirtyFirstBefore(year: int, f: Fields, k: nat)
    requires 1 <= year && 1 <= k < 87840
    requires f.minutes == {59} && f.hours == {23} && f.days == {31}
    ensures !Matches(f, MinutesLater(Minute(Date(year, 3, 31), 1439), k))
  {
    var base := Minute(Date(year, 3, 31), 1439);
    MinutesAsDays(base, k);
    if Matches(f, MinutesLater(base, k)) {
      var n := (1439 + k) / MINUTES_A_DAY;
      LastMinuteOfDay(k);
      SpringDay(year, n);
    }
  }

  /**
   61 days are needed: for the last minute of the 31st, in any month and on any weekday, the search
   from that minute of the 31st of March goes on to the 31st of May, past 87,839 minutes in vain.
   */
  lemma SixtyOneDaysAreNeeded(year: int, f: Fields, r: Result<Minute, CronError>)
    requires 1 <= year <= MAX_YEAR
    requires f.minutes == {59} && f.hours == {23} && f.days == {31}
    requires (forall v | 1 <= v <= 12 :: v in f.months) && (forall v | 0 <= v < 7 :: v in f.weekdays)
    requires IsOutcome(Some(f), Minute(Date(year, 3, 31), 1439), r)
    ensures var base := Minute(Date(year, 3, 31), 1439);
      && r == Ok(MinutesLater(base, 87840)) && MinutesLater(base, 87840) == Minute(Date(year, 5, 31), 1439)
      && forall k | 1 <= k < 87840 :: !Matches(f, MinutesLater(base, k))
  {
    var base := Minute(Date(year, 3, 31), 1439);
    SpringDay(year, 61);
    MinutesAsDays(base, 87840);
    forall k | 1 <= k < 87840 ensures !Matches(f, MinutesLater(base, k)) {
      NoThirtyFirstBefore(year, f, k);
    }
    var n := FoundBy(f, base, r, 87840);
    FoundMatches(f, base, r);
  }

  lemma FoundMatches(f: Fields, base: Minute, r: Result<Minute, CronError>)
    requires ValidMinute(base) && IsOutcome(Some(f), base, r) && r.Ok?
    ensures Matches(f, r.value)
  {
    var n: nat :| EndsAt(f, base, n, r);
  }

  /** What the search finds is the earliest minute of the calendar after the base that matches. */
  lemma FindsTheEarliest(f: Fields, base: Minute, r: Result<Minute, CronError>)
    requires ValidMinute(base) && IsOutcome(Some(f), base, r) && r.Ok?
    ensures ValidMinute(r.value) && Matches(f, r.value) && MinuteNumber(base) < MinuteNumber(r.value)
    ensures forall m | ValidMinute(m) && Matches(f, m) && MinuteNumber(base) < MinuteNumber(m) ::
              MinuteNumber(r.value) <= MinuteNumber(m)
  {
    var n: nat :| EndsAt(f, base, n, r);
    MinutesAdvance(base, n + 1);
    forall m | ValidMinute(m) && Matches(f, m) && MinuteNumber(base) < MinuteNumber(m)
      ensures MinuteNumber(r.value) <= MinuteNumber(m)
    {
      EveryMinuteComes(base, m);
    }
  }

  /** A single word is no cron expression: the search raises at once. */
  lemma OneWordRaises(word: string, base: Minute, r: Result<Minute, CronError>)
    requires word != [] && (forall c | c in word :: !Space(c)) && ValidMinute(base)
    requires IsOutcome(ParseFields(word), base, r)
    ensures r == Err(BadExpression) || r == Err(OutOfRange)
  {
    assert WordLength(word) == |word|;
    assert word[..|word|] == word && word[|word|..] == [];
    assert Words(word) == [word] + Words([]);
  }
}
