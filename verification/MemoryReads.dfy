/** What a memory answers, in terms of what was written into it. */
module MemoryReads {
  import opened Prelude
  import opened OrderedDicts
  import opened Memory

  type History = seq<(Op, Time)>

  /** The entry last written under `k`, unless it was deleted since or everything was cleared. */
  function LastWrite(history: History, k: string): Option<Entry>
    decreases |history|
  {
    if history == [] then None
    else
      var (op, at) := history[|history| - 1];
      if op.Set? && op.key == k then
        Some(Entry(k, op.value, op.metadata, at, match op.ttl case Some(t) => Some(at + t) case None => None))
      else if op.Clear? || (op.Delete? && op.key == k) then None
      else LastWrite(history[..|history| - 1], k)
  }

  /** That entry, up to and including the moment at which it expires. */
  function Readable(history: History, k: string, now: Time): Option<Entry> {
    var e := LastWrite(history, k);
    if e.Some? && (e.value.expireAt.Some? ==> now <= e.value.expireAt.value) then e else None
  }

  // ---------------------------------------------------------------- what the dictionary holds

  lemma {:induction false} FindPut<V>(d: Dict<V>, k: string, v: V, j: string)
    ensures Find(Put(d, k, v), j) == if j == k then Some(v) else Find(d, j)
  {
    if d != [] && d[0].0 != k {
      FindPut(d[1..], k, v, j);
    } else if d != [] {
      assert ([(k, v)] + d[1..])[1..] == d[1..];
    }
  }

  lemma {:induction false} FindRemove<V>(d: Dict<V>, k: string, j: string)
    ensures Find(Remove(d, k), j) == if j == k then None else Find(d, j)
  {
    if d != [] {
      FindRemove(d[1..], k, j);
    }
  }

  /** The entry under `k`, if it has not expired. */
  function Visible(d: Dict<Entry>, k: string, now: Time): Option<Entry> {
    if Find(d, k).Some? && !Expired(Find(d, k).value, now) then Find(d, k) else None
  }

  lemma VisibleStays(d: Dict<Entry>, k: string, at: Time, now: Time)
    requires Keyed(d) && at <= now
    ensures Visible(Live(d, at), k, now) == Visible(d, k, now)
  {
    FindLive(d, k, at);
  }

  /** From `clock` on the dictionary shows what was last written. */
  ghost predicate Shows(d: Dict<Entry>, history: History, clock: Time) {
    Keyed(d) && forall k, now: Time | now >= clock :: Visible(d, k, now) == Readable(history, k, now)
  }

  lemma LastWriteSnoc(history: History, op: Op, at: Time, k: string)
    ensures LastWrite(history + [(op, at)], k)
         == if op.Set? && op.key == k then Some(NewEntry(op, at))
            else if op.Clear? || (op.Delete? && op.key == k) then None
            else LastWrite(history, k)
  {
    assert (history + [(op, at)])[..|history|] == history;
  }

  lemma StepShows(d: Dict<Entry>, history: History, clock: Time, op: Op, at: Time)
    requires Shows(d, history, clock) && clock <= at
    ensures Shows(Step(d, op, at).0, history + [(op, at)], at)
  {
    StepKeyed(d, op, at);
    forall k, now: Time | now >= at
      ensures Visible(Step(d, op, at).0, k, now) == Readable(history + [(op, at)], k, now)
    {
      LastWriteSnoc(history, op, at, k);
      VisibleStays(d, k, at, now);
      match op
      case Set(j, _, _, _) => FindPut(Live(d, at), j, NewEntry(op, at), k);
      case Delete(j) => FindRemove(Live(d, at), j, k);
      case _ =>
    }
  }

  function Left(d: Dict<Entry>, ops: History): Dict<Entry>
    decreases |ops|
  {
    if ops == [] then d else Left(Step(d, ops[0].0, ops[0].1).0, ops[1..])
  }

  /** The last of the readings, or where the clock stood. */
  function ClockAfter(ops: History, clock: Time): Time {
    if ops == [] then clock else ops[|ops| - 1].1
  }

  lemma {:induction false} RunShows(d: Dict<Entry>, past: History, clock: Time, ops: History)
    requires Shows(d, past, clock) && Monotone(ops, clock)
    ensures Shows(Left(d, ops), past + ops, ClockAfter(ops, clock))
    decreases |ops|
  {
    if ops == [] {
      assert past + [] == past;
    } else {
      StepShows(d, past, clock, ops[0].0, ops[0].1);
      RunShows(Step(d, ops[0].0, ops[0].1).0, past + [ops[0]], ops[0].1, ops[1..]);
      assert (past + [ops[0]]) + ops[1..] == past + ops;
    }
  }

  lemma {:induction false} MonotoneSnoc(ops: History, op: Op, now: Time, clock: Time)
    requires Monotone(ops + [(op, now)], clock)
    ensures Monotone(ops, clock) && ClockAfter(ops, clock) <= now
    decreases |ops|
  {
    if ops != [] {
      assert (ops + [(op, now)])[1..] == ops[1..] + [(op, now)] && (ops + [(op, now)])[0] == ops[0];
      MonotoneSnoc(ops[1..], op, now, ops[0].1);
    }
  }

  lemma {:induction false} AnswersSnoc(d: Dict<Entry>, ops: History, op: Op, now: Time)
    ensures Answers(d, ops + [(op, now)]) == Answers(d, ops) + [Step(Left(d, ops), op, now).1] && |Answers(d, ops)| == |ops|
    decreases |ops|
  {
    if ops == [] {
      OneAnswer(d, op, now);
      assert ops + [(op, now)] == [(op, now)];
    } else {
      assert (ops + [(op, now)])[1..] == ops[1..] + [(op, now)];
      AnswersSnoc(Step(d, ops[0].0, ops[0].1).0, ops[1..], op, now);
    }
  }

  lemma {:induction false} ChosenIff(d: Dict<Entry>, wanted: Entry -> bool, e: Entry)
    ensures e in Chosen(d, wanted) <==> wanted(e) && exists p :: p in d && p.1 == e
  {
    if d != [] {
      ChosenIff(d[1..], wanted, e);
      assert d[0] in d && forall p | p in d :: p == d[0] || p in d[1..];
      assert forall p | p in d[1..] :: p in d;
    }
  }

  function EntriesOf(d: Dict<Entry>): seq<Entry> {
    if d == [] then [] else [d[0].1] + EntriesOf(d[1..])
  }

  /** The live entries stay in their order. */
  lemma {:induction false} LiveInOrder(d: Dict<Entry>, now: Time)
    ensures Subsequence(Live(d, now), d)
  {
    if d != [] {
      var rest := Live(d[1..], now);
      LiveInOrder(d[1..], now);
      assert rest != [] ==> rest[0] in rest;
      SubsequenceOneMore(rest, d, !Expired(d[0].1, now));
    }
  }

  /** A filter gives what it asks for in the order in which the memory holds it. */
  lemma {:induction false} ChosenInOrder(d: Dict<Entry>, wanted: Entry -> bool)
    ensures Subsequence(Chosen(d, wanted), EntriesOf(d))
  {
    if d != [] {
      var rest := Chosen(d[1..], wanted);
      ChosenInOrder(d[1..], wanted);
      assert EntriesOf(d)[1..] == EntriesOf(d[1..]);
      assert rest != [] ==> rest[0] in rest;
      SubsequenceOneMore(rest, EntriesOf(d), wanted(d[0].1));
    }
  }

  /** What one answer has to be, from what was written before. */
  ghost predicate RightAnswer(history: History, op: Op, now: Time, a: Answer) {
    match op
    case Get(k, default) => a == Value(match Readable(history, k, now) case Some(e) => e.value case None => default)
    case GetEntry(k) => a == Found(Readable(history, k, now))
    case Select(wanted) =>
      a.Entries? && forall e :: e in a.entries <==> wanted(e) && exists k :: Readable(history, k, now) == Some(e)
    case _ => a == Nothing
  }

  lemma SelectShows(d: Dict<Entry>, history: History, clock: Time, wanted: Entry -> bool, now: Time, e: Entry)
    requires Shows(d, history, clock) && clock <= now
    ensures e in Chosen(Live(d, now), wanted) <==> wanted(e) && exists k :: Readable(history, k, now) == Some(e)
  {
    var live := Live(d, now);
    ChosenIff(live, wanted, e);
    LiveKeyed(d, now);
    if p :| p in live && p.1 == e {
      var i :| 0 <= i < |live| && live[i] == p;
      FindIs(live, i);
      FindLive(d, p.0, now);
      assert Readable(history, p.0, now) == Some(e);
    }
    if k :| Readable(history, k, now) == Some(e) {
      assert Visible(d, k, now) == Some(e);
      FindLive(d, k, now);
      FindIn(live, k);
    }
  }

  lemma ShownAnswer(d: Dict<Entry>, history: History, clock: Time, op: Op, now: Time)
    requires Shows(d, history, clock) && clock <= now
    ensures RightAnswer(history, op, now, Step(d, op, now).1)
  {
    match op
    case Get(k, _) =>
      FindLive(d, k, now);
      assert Visible(d, k, now) == Readable(history, k, now);
    case GetEntry(k) =>
      FindLive(d, k, now);
      assert Visible(d, k, now) == Readable(history, k, now);
    case Select(wanted) =>
      forall e ensures e in Chosen(Live(d, now), wanted) <==> wanted(e) && exists k :: Readable(history, k, now) == Some(e) {
        SelectShows(d, history, clock, wanted, now, e);
      }
    case _ =>
  }

  /**
   With a clock that does not go back both memories, empty at first, answer a read with what was last
   written under the key and neither deleted nor cleared since, until its time is over; and a filter
   with exactly such entries that it asks for.
   */
  lemma ReadsLastWrite(ops: History, op: Op, now: Time, clock: Time)
    requires Monotone(ops + [(op, now)], clock)
    ensures var all := ops + [(op, now)];
      && |Answers([], all)| == |all| && StoreAnswers([], all) == Answers([], all)
      && RightAnswer(ops, op, now, Answers([], all)[|ops|])
  {
    MonotoneSnoc(ops, op, now, clock);
    RunShows([], [], clock, ops);
    assert [] + ops == ops;
    AnswersSnoc([], ops, op, now);
    ShownAnswer(Left([], ops), ops, ClockAfter(ops, clock), op, now);
    SameAnswers([], [], clock, ops + [(op, now)]);
  }
}
