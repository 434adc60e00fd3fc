/** Two memories with expiring entries: one in a dictionary, one over a storage backend. */
module Memory {
  import opened Prelude
  import opened OrderedDicts

  type Time = real

  datatype Entry = Entry(key: string, value: string, metadata: map<string, string>, createdAt: Time, expireAt: Option<Time>)

  /** What a storage holds under a key: an entry turned into a dictionary, or something a memory did not write. */
  datatype Stored = Packed(entry: Entry) | Foreign(value: string)

  predicate Expired(e: Entry, now: Time) {
    e.expireAt.Some? && now > e.expireAt.value
  }

  datatype Op =
    | Get(key: string, default: string)
    | Set(key: string, value: string, metadata: map<string, string>, ttl: Option<real>)
    | Delete(key: string)
    | Clear
    | GetEntry(key: string)
    | Select(wanted: Entry -> bool)

  datatype Answer = Nothing | Value(value: string) | Found(entry: Option<Entry>) | Entries(entries: seq<Entry>)

  function NewEntry(op: Op, now: Time): Entry
    requires op.Set?
  {
    Entry(op.key, op.value, op.metadata, now, if op.ttl.Some? then Some(now + op.ttl.value) else None)
  }

  /** The condition of `filter`: every asked-for item is among the metadata. */
  predicate HasMetadata(e: Entry, filters: map<string, string>) {
    forall k | k in filters :: k in e.metadata && e.metadata[k] == filters[k]
  }

  function ByMetadata(filters: map<string, string>): Entry -> bool {
    (e: Entry) => HasMetadata(e, filters)
  }

  // ---------------------------------------------------------------- the memory in a dictionary

  function Live(d: Dict<Entry>, now: Time): (r: Dict<Entry>)
    ensures forall p | p in r :: p in d && !Expired(p.1, now)
  {
    if d == [] then [] else (if Expired(d[0].1, now) then [] else [d[0]]) + Live(d[1..], now)
  }

  function Chosen(d: Dict<Entry>, wanted: Entry -> bool): (r: seq<Entry>)
    ensures forall e | e in r :: wanted(e) && exists p :: p in d && p.1 == e
  {
    if d == [] then []
    else
      assert d[0] in d;
      (if wanted(d[0].1) then [d[0].1] else []) + Chosen(d[1..], wanted)
  }

  /** One operation at one clock reading: the entries left, and the answer. */
  function Step(d: Dict<Entry>, op: Op, now: Time): (Dict<Entry>, Answer) {
    var live := Live(d, now);
    match op
    case Get(k, default) => (live, Value(match Find(live, k) case Some(e) => e.value case None => default))
    case Set(k, _, _, _) => (Put(live, k, NewEntry(op, now)), Nothing)
    case Delete(k) => (Remove(live, k), Nothing)
    case Clear => ([], Nothing)
    case GetEntry(k) => (live, Found(Find(live, k)))
    case Select(wanted) => (live, Entries(Chosen(live, wanted)))
  }

  // ---------------------------------------------------------------- the memory over a store

  /** `get_entry`: an expired entry is deleted on the way. */
  function Fetch(s: Dict<Stored>, k: string, now: Time): (Dict<Stored>, Option<Entry>) {
    match Find<Stored>(s, k)
    case None => (s, None)
    case Some(Foreign(value)) => (s, Some(Entry(k, value, map[], now, None)))
    case Some(Packed(e)) => if Expired(e, now) then (Remove(s, k), None) else (s, Some(e))
  }

  function Keys<V>(d: Dict<V>): seq<string> {
    if d == [] then [] else [d[0].0] + Keys(d[1..])
  }

  /** `_cleanup_expired`: every key is fetched once. */
  function Sweep(s: Dict<Stored>, keys: seq<string>, now: Time): Dict<Stored>
    decreases |keys|
  {
    if keys == [] then s else Sweep(Fetch(s, keys[0], now).0, keys[1..], now)
  }

  /** The loop of `filter` and `search`: the store, and the matching entries in order. */
  function Gather(s: Dict<Stored>, keys: seq<string>, wanted: Entry -> bool, now: Time): (Dict<Stored>, seq<Entry>)
    decreases |keys|
  {
    if keys == [] then (s, [])
    else
      var (after, e) := Fetch(s, keys[0], now);
      var (last, rest) := Gather(after, keys[1..], wanted, now);
      (last, (if e.Some? && wanted(e.value) then [e.value] else []) + rest)
  }

  function StoreStep(s: Dict<Stored>, op: Op, now: Time): (Dict<Stored>, Answer) {
    var clean := Sweep(s, Keys(s), now);
    match op
    case Get(k, default) => var (after, e) := Fetch(clean, k, now); (after, Value(if e.Some? then e.value.value else default))
    case Set(k, _, _, _) => (Put(clean, k, Packed(NewEntry(op, now))), Nothing)
    case Delete(k) => (Remove(clean, k), Nothing)
    case Clear => ([], Nothing)
    case GetEntry(k) => var (after, e) := Fetch(s, k, now); (after, Found(e))
    case Select(wanted) => var (after, entries) := Gather(clean, Keys(clean), wanted, now); (after, Entries(entries))
  }

  // ---------------------------------------------------------------- a private store holds packed entries

  /** The store of a memory that nothing else writes to. */
  function Pack(d: Dict<Entry>): (s: Dict<Stored>)
    ensures |s| == |d| && forall i | 0 <= i < |d| :: s[i] == (d[i].0, Packed(d[i].1))
  {
    if d == [] then [] else [(d[0].0, Packed(d[0].1))] + Pack(d[1..])
  }

  lemma {:induction false} PackFind(d: Dict<Entry>, k: string)
    ensures Find(Pack(d), k) == match Find(d, k) case Some(e) => Some(Packed(e)) case None => None
  {
    if d != [] {
      PackFind(d[1..], k);
    }
  }

  lemma {:induction false} PackRemove(d: Dict<Entry>, k: string)
    ensures Remove(Pack(d), k) == Pack(Remove(d, k))
  {
    if d != [] {
      PackRemove(d[1..], k);
    }
  }

  lemma {:induction false} PackPut(d: Dict<Entry>, k: string, e: Entry)
    ensures Put(Pack(d), k, Packed(e)) == Pack(Put(d, k, e))
  {
    if d != [] {
      PackPut(d[1..], k, e);
      assert ([(k, e)] + d[1..])[1..] == d[1..];
    }
  }

  lemma {:induction false} PackKeys(d: Dict<Entry>)
    ensures Keys(Pack(d)) == Keys(d)
  {
    if d != [] {
      PackKeys(d[1..]);
    }
  }

  /** The entries after one fetch. */
  function Fetched(d: Dict<Entry>, k: string, now: Time): Dict<Entry> {
    if Find(d, k).Some? && Expired(Find(d, k).value, now) then Remove(d, k) else d
  }

  lemma PackFetch(d: Dict<Entry>, k: string, now: Time)
    ensures Fetch(Pack(d), k, now)
         == (Pack(Fetched(d, k, now)), if Find(d, k).Some? && !Expired(Find(d, k).value, now) then Find(d, k) else None)
  {
    PackFind(d, k);
    PackRemove(d, k);
  }

  lemma {:induction false} LiveKeyed(d: Dict<Entry>, now: Time)
    requires Keyed(d)
    ensures Keyed(Live(d, now))
  {
    if d != [] {
      HeadIsUnique(d);
      LiveKeyed(d[1..], now);
      InFront(d[0], Live(d[1..], now));
    }
  }

  lemma {:induction false} FindLive(d: Dict<Entry>, k: string, now: Time)
    requires Keyed(d)
    ensures Find(Live(d, now), k) == if Find(d, k).Some? && !Expired(Find(d, k).value, now) then Find(d, k) else None
  {
    if d != [] {
      HeadIsUnique(d);
      FindLive(d[1..], k, now);
      LiveSplit(d, now);
    }
  }

  lemma LiveSplit(d: Dict<Entry>, now: Time)
    requires d != []
    ensures Expired(d[0].1, now) ==> Live(d, now) == Live(d[1..], now)
    ensures !Expired(d[0].1, now) ==> Live(d, now) != [] && Live(d, now)[0] == d[0] && Live(d, now)[1..] == Live(d[1..], now)
  {
  }

  /** Fetching changes nothing about what is live. */
  lemma {:induction false} FetchedLive(d: Dict<Entry>, k: string, now: Time)
    requires Keyed(d)
    ensures Live(Fetched(d, k, now), now) == Live(d, now)
  {
    if Find(d, k).Some? && Expired(Find(d, k).value, now) {
      RemoveExpired(d, k, now);
    }
  }

  lemma {:induction false} RemoveExpired(d: Dict<Entry>, k: string, now: Time)
    requires Keyed(d) && Find(d, k).Some? && Expired(Find(d, k).value, now)
    ensures Live(Remove(d, k), now) == Live(d, now)
  {
    HeadIsUnique(d);
    if d[0].0 == k {
      RemoveAbsent(d[1..], k);
    } else {
      RemoveExpired(d[1..], k, now);
    }
  }

  lemma SweepStep(s: Dict<Stored>, d: Dict<Entry>, now: Time)
    requires d != []
    ensures Sweep(s, Keys(d), now) == Sweep(Fetch(s, d[0].0, now).0, Keys(d[1..]), now)
  {
    assert Keys(d)[1..] == Keys(d[1..]);
  }

  /** Sweeping all keys leaves exactly the live entries, in order. */
  lemma {:induction false} SweepIsLive(done: Dict<Entry>, rest: Dict<Entry>, now: Time)
    requires Keyed(done + rest)
    ensures Sweep(Pack(done + rest), Keys(rest), now) == Pack(done + Live(rest, now))
    decreases |rest|
  {
    if rest == [] {
      assert done + [] == done;
    } else {
      FetchMiddle(done, rest, now);
      SweepStep(Pack(done + rest), rest, now);
      LiveSplit(rest, now);
      if Expired(rest[0].1, now) {
        DropMiddleKeyed(done, rest);
        SweepIsLive(done, rest[1..], now);
      } else {
        Shift(done, rest);
        SweepIsLive(done + [rest[0]], rest[1..], now);
        Shift(done, Live(rest, now));
      }
    }
  }

  lemma Shift(done: Dict<Entry>, rest: Dict<Entry>)
    requires rest != []
    ensures (done + [rest[0]]) + rest[1..] == done + rest
  {
  }

  lemma FetchMiddle(done: Dict<Entry>, rest: Dict<Entry>, now: Time)
    requires Keyed(done + rest) && rest != []
    ensures Fetch(Pack(done + rest), rest[0].0, now).0 == Pack(if Expired(rest[0].1, now) then done + rest[1..] else done + rest)
  {
    var d := done + rest;
    assert d[|done|] == rest[0];
    FindIs(d, |done|);
    PackFetch(d, rest[0].0, now);
    RemoveMiddle(done, rest, now);
  }

  lemma {:induction false} RemoveMiddle(done: Dict<Entry>, rest: Dict<Entry>, now: Time)
    requires Keyed(done + rest) && rest != []
    ensures Remove(done + rest, rest[0].0) == done + rest[1..]
  {
    var d := done + rest;
    if done == [] {
      assert d == rest && done + rest[1..] == rest[1..];
      HeadIsUnique(rest);
      RemoveAbsent(rest[1..], rest[0].0);
    } else {
      assert d[1..] == done[1..] + rest;
      HeadIsUnique(d);
      assert d[0].0 != d[|done|].0;
      RemoveMiddle(done[1..], rest, now);
      assert done + rest[1..] == [done[0]] + (done[1..] + rest[1..]);
    }
  }

  lemma DropMiddleKeyed(done: Dict<Entry>, rest: Dict<Entry>)
    requires Keyed(done + rest) && rest != []
    ensures Keyed(done + rest[1..])
  {
    var d, r := done + rest, done + rest[1..];
    forall i, j | 0 <= i < j < |r| ensures r[i].0 != r[j].0 {
      assert r[i] == d[if i < |done| then i else i + 1] && r[j] == d[if j < |done| then j else j + 1];
    }
  }

  /** Without expired entries gathering fetches everything and changes nothing. */
  lemma {:induction false} GatherIsChosen(d: Dict<Entry>, rest: Dict<Entry>, wanted: Entry -> bool, now: Time)
    requires Keyed(d) && (forall p | p in d :: !Expired(p.1, now)) && forall p | p in rest :: p in d
    ensures Gather(Pack(d), Keys(rest), wanted, now) == (Pack(d), Chosen(rest, wanted))
    decreases |rest|
  {
    if rest != [] {
      assert rest[0] in d;
      var i :| 0 <= i < |d| && d[i] == rest[0];
      FindIs(d, i);
      PackFetch(d, rest[0].0, now);
      GatherIsChosen(d, rest[1..], wanted, now);
    }
  }

  // ---------------------------------------------------------------- the two memories compared

  /** The entries the store is left with. */
  function StoreEntries(d: Dict<Entry>, op: Op, now: Time): Dict<Entry> {
    if op.GetEntry? then Fetched(d, op.key, now) else Step(d, op, now).0
  }

  lemma CleanIsLive(d: Dict<Entry>, now: Time)
    requires Keyed(d)
    ensures Sweep(Pack(d), Keys(Pack(d)), now) == Pack(Live(d, now)) && Keyed(Live(d, now))
  {
    assert [] + d == d && [] + Live(d, now) == Live(d, now);
    PackKeys(d);
    SweepIsLive([], d, now);
    LiveKeyed(d, now);
  }

  lemma FetchLive(d: Dict<Entry>, k: string, now: Time)
    requires Keyed(d)
    ensures Fetch(Pack(Live(d, now)), k, now) == (Pack(Live(d, now)), Find(Live(d, now), k))
  {
    PackFetch(Live(d, now), k, now);
    FindIn(Live(d, now), k);
  }

  lemma GatherLive(d: Dict<Entry>, wanted: Entry -> bool, now: Time)
    requires Keyed(d)
    ensures Gather(Pack(Live(d, now)), Keys(Pack(Live(d, now))), wanted, now) == (Pack(Live(d, now)), Chosen(Live(d, now), wanted))
  {
    LiveKeyed(d, now);
    PackKeys(Live(d, now));
    GatherIsChosen(Live(d, now), Live(d, now), wanted, now);
  }

  /** On a private store an operation gives the dictionary's answer. */
  lemma PackedStep(d: Dict<Entry>, op: Op, now: Time)
    requires Keyed(d)
    ensures StoreStep(Pack(d), op, now) == (Pack(StoreEntries(d, op, now)), Step(d, op, now).1)
  {
    match op
    case Get(k, default) => PackedGet(d, op, now);
    case Set(k, v, m, ttl) => PackedSet(d, op, now);
    case Delete(k) => PackedDelete(d, op, now);
    case Clear =>
    case GetEntry(k) => PackedGetEntry(d, op, now);
    case Select(wanted) => PackedSelect(d, op, now);
  }

  lemma PackedGet(d: Dict<Entry>, op: Op, now: Time)
    requires Keyed(d) && op.Get?
    ensures StoreStep(Pack(d), op, now) == (Pack(StoreEntries(d, op, now)), Step(d, op, now).1)
  {
    CleanIsLive(d, now);
    FetchLive(d, op.key, now);
  }

  lemma PackedSet(d: Dict<Entry>, op: Op, now: Time)
    requires Keyed(d) && op.Set?
    ensures StoreStep(Pack(d), op, now) == (Pack(StoreEntries(d, op, now)), Step(d, op, now).1)
  {
    CleanIsLive(d, now);
    PackPut(Live(d, now), op.key, NewEntry(op, now));
  }

  lemma PackedDelete(d: Dict<Entry>, op: Op, now: Time)
    requires Keyed(d) && op.Delete?
    ensures StoreStep(Pack(d), op, now) == (Pack(StoreEntries(d, op, now)), Step(d, op, now).1)
  {
    CleanIsLive(d, now);
    PackRemove(Live(d, now), op.key);
  }

  lemma PackedGetEntry(d: Dict<Entry>, op: Op, now: Time)
    requires Keyed(d) && op.GetEntry?
    ensures StoreStep(Pack(d), op, now) == (Pack(StoreEntries(d, op, now)), Step(d, op, now).1)
  {
    PackFetch(d, op.key, now);
    FindLive(d, op.key, now);
  }

  lemma PackedSelect(d: Dict<Entry>, op: Op, now: Time)
    requires Keyed(d) && op.Select?
    ensures StoreStep(Pack(d), op, now) == (Pack(StoreEntries(d, op, now)), Step(d, op, now).1)
  {
    CleanIsLive(d, now);
    GatherLive(d, op.wanted, now);
  }

  lemma StepKeyed(d: Dict<Entry>, op: Op, now: Time)
    requires Keyed(d)
    ensures Keyed(Step(d, op, now).0) && Keyed(StoreEntries(d, op, now))
  {
    LiveKeyed(d, now);
    match op
    case Set(k, v, m, ttl) => PutKeyed(Live(d, now), k, NewEntry(op, now));
    case Delete(k) => RemoveKeyed(Live(d, now), k);
    case GetEntry(k) => RemoveKeyed(d, k);
    case _ =>
  }

  /** What has expired stays expired while the clock does not go back. */
  lemma {:induction false} LiveLater(d: Dict<Entry>, earlier: Time, now: Time)
    requires earlier <= now
    ensures Live(Live(d, earlier), now) == Live(d, now)
  {
    if d != [] {
      LiveLater(d[1..], earlier, now);
      LiveSplit(d, earlier);
      LiveSplit(d, now);
    }
  }

  /** An operation depends on the live entries only, and keeps two memories with the same live entries that way. */
  lemma SameLiveSameAnswer(d: Dict<Entry>, s: Dict<Entry>, op: Op, now: Time)
    requires Keyed(d) && Keyed(s) && Live(d, now) == Live(s, now)
    ensures Step(d, op, now).1 == Step(s, op, now).1
    ensures Live(Step(d, op, now).0, now) == Live(StoreEntries(s, op, now), now)
  {
    if op.GetEntry? {
      FetchedLive(s, op.key, now);
      LiveLater(d, now, now);
    }
  }

  // ---------------------------------------------------------------- runs

  function Answers(d: Dict<Entry>, ops: seq<(Op, Time)>): seq<Answer>
    decreases |ops|
  {
    if ops == [] then [] else [Step(d, ops[0].0, ops[0].1).1] + Answers(Step(d, ops[0].0, ops[0].1).0, ops[1..])
  }

  function StoreAnswers(s: Dict<Stored>, ops: seq<(Op, Time)>): seq<Answer>
    decreases |ops|
  {
    if ops == [] then []
    else [StoreStep(s, ops[0].0, ops[0].1).1] + StoreAnswers(StoreStep(s, ops[0].0, ops[0].1).0, ops[1..])
  }

  /** The readings do not go back, and start no earlier than `clock`. */
  predicate Monotone(ops: seq<(Op, Time)>, clock: Time)
    decreases |ops|
  {
    ops == [] || (clock <= ops[0].1 && Monotone(ops[1..], ops[0].1))
  }

  /** With a clock that does not go back both memories answer every sequence of operations alike. */
  lemma {:induction false} SameAnswers(d: Dict<Entry>, s: Dict<Entry>, clock: Time, ops: seq<(Op, Time)>)
    requires Keyed(d) && Keyed(s) && Live(d, clock) == Live(s, clock) && Monotone(ops, clock)
    ensures Answers(d, ops) == StoreAnswers(Pack(s), ops)
    decreases |ops|
  {
    if ops != [] {
      var (op, now) := ops[0];
      LiveLater(d, clock, now);
      LiveLater(s, clock, now);
      SameLiveSameAnswer(d, s, op, now);
      PackedStep(s, op, now);
      StepKeyed(d, op, now);
      StepKeyed(s, op, now);
      SameAnswers(Step(d, op, now).0, StoreEntries(s, op, now), now, ops[1..]);
    }
  }

  // ---------------------------------------------------------------- a clock that goes back

  /** An expired entry other than the one asked for. */
  ghost predicate OtherExpired(d: Dict<Entry>, k: string, now: Time) {
    exists p :: p in d && p.0 != k && Expired(p.1, now)
  }

  lemma {:induction false} NothingExpired(d: Dict<Entry>, now: Time)
    ensures Live(d, now) == d <==> forall p | p in d :: !Expired(p.1, now)
    ensures |Live(d, now)| <= |d|
  {
    if d != [] {
      NothingExpired(d[1..], now);
      assert forall p | p in d :: p == d[0] || p in d[1..];
      if Expired(d[0].1, now) {
        assert |Live(d, now)| < |d|;
        assert d[0] in d;
      } else {
        assert Live(d, now)[1..] == Live(d[1..], now);
        assert Live(d, now) == d ==> Live(d[1..], now) == d[1..];
        assert forall p | p in d[1..] :: p in d;
      }
    }
  }

  /** From the same entries the memories keep the same entries, except where `get_entry` passes by another expired one. */
  lemma SameEntriesIff(d: Dict<Entry>, op: Op, now: Time)
    requires Keyed(d)
    ensures Step(d, op, now).0 == StoreEntries(d, op, now) <==> !(op.GetEntry? && OtherExpired(d, op.key, now))
  {
    if op.GetEntry? {
      var left := Fetched(d, op.key, now);
      FetchedLive(d, op.key, now);
      NothingExpired(left, now);
      LeftAfterFetch(d, op.key, now);
    }
  }

  lemma LeftAfterFetch(d: Dict<Entry>, k: string, now: Time)
    requires Keyed(d)
    ensures (exists p :: p in Fetched(d, k, now) && Expired(p.1, now)) <==> OtherExpired(d, k, now)
  {
    forall p | p in d && p.0 == k ensures Find(d, k) == Some(p.1) {
      var i :| 0 <= i < |d| && d[i] == p;
      FindIs(d, i);
    }
    RemoveKeepsOthers(d, k);
  }

  lemma {:induction false} RemoveKeepsOthers(d: Dict<Entry>, k: string)
    ensures forall p :: p in Remove(d, k) <==> p in d && p.0 != k
  {
    if d != [] {
      RemoveKeepsOthers(d[1..], k);
    }
  }

  /** A moment before anything expires. */
  lemma {:induction false} BeforeAll(d: Dict<Entry>) returns (now: Time)
    ensures forall p | p in d :: !Expired(p.1, now)
  {
    if d == [] {
      now := 0.0;
    } else {
      now := BeforeAll(d[1..]);
      if Expired(d[0].1, now) {
        now := d[0].1.expireAt.value;
      }
      assert forall p | p in d :: p == d[0] || p in d[1..];
    }
  }

  function Everything(): Entry -> bool {
    (e: Entry) => true
  }

  lemma OneAnswer(d: Dict<Entry>, op: Op, now: Time)
    ensures Answers(d, [(op, now)]) == [Step(d, op, now).1]
  {
    var ops: seq<(Op, Time)> := [(op, now)];
    assert ops[1..] == [] && Answers(Step(d, op, now).0, []) == [];
  }

  lemma OneStoreAnswer(s: Dict<Stored>, op: Op, now: Time)
    ensures StoreAnswers(s, [(op, now)]) == [StoreStep(s, op, now).1]
  {
    var ops: seq<(Op, Time)> := [(op, now)];
    assert ops[1..] == [] && StoreAnswers(StoreStep(s, op, now).0, []) == [];
  }

  /** Memories that keep different entries can be told apart by a later `filter`, at a reading far enough back. */
  lemma DifferenceShows(d: Dict<Entry>, s: Dict<Entry>) returns (now: Time)
    requires Keyed(d) && Keyed(s) && d != s
    requires forall p | p in d + s :: p.1.key == p.0
    ensures Answers(d, [(Select(Everything()), now)]) != StoreAnswers(Pack(s), [(Select(Everything()), now)])
  {
    now := BeforeAll(d + s);
    AllEntriesThen(d, d + s, Everything(), now);
    AllEntriesThen(s, d + s, Everything(), now);
    PackedStep(s, Select(Everything()), now);
    if Chosen(d, Everything()) == Chosen(s, Everything()) {
      SameEntriesSamePairs(d, s, Everything());
    }
    OneAnswer(d, Select(Everything()), now);
    OneStoreAnswer(Pack(s), Select(Everything()), now);
  }

  lemma AllEntriesThen(d: Dict<Entry>, both: Dict<Entry>, all: Entry -> bool, now: Time)
    requires (forall p | p in d :: p in both) && (forall p | p in both :: !Expired(p.1, now))
    ensures Step(d, Select(all), now).1 == Entries(Chosen(d, all))
  {
    NothingExpired(d, now);
  }

  lemma SameEntriesSamePairs(d: Dict<Entry>, s: Dict<Entry>, all: Entry -> bool)
    requires (forall e :: all(e)) && Chosen(d, all) == Chosen(s, all)
    requires forall p | p in d + s :: p.1.key == p.0
    ensures d == s
  {
    ChosenAll(d, all);
    ChosenAll(s, all);
    forall i | 0 <= i < |d| ensures d[i] == s[i] {
      assert d[i] in d + s && s[i] in d + s;
      assert Chosen(d, all)[i] == d[i].1 && Chosen(s, all)[i] == s[i].1;
    }
  }

  lemma {:induction false} ChosenAll(d: Dict<Entry>, all: Entry -> bool)
    requires forall e :: all(e)
    ensures |Chosen(d, all)| == |d| && forall i | 0 <= i < |d| :: Chosen(d, all)[i] == d[i].1
  {
    if d != [] {
      ChosenAll(d[1..], all);
    }
  }

  /** With a clock that goes back the answers can differ: an entry gone from the one memory is found in the other. */
  lemma ClockGoingBackShows()
    ensures var ops := [(Set("x", "v", map[], Some(1.0)), 0.0), (GetEntry("y"), 2.0), (Get("x", "gone"), 0.0)];
      Answers([], ops) == [Nothing, Found(None), Value("gone")] && StoreAnswers([], ops) == [Nothing, Found(None), Value("v")]
  {
    var write, peek, read := Set("x", "v", map[], Some(1.0)), GetEntry("y"), Get("x", "gone");
    GoneFromDictionary(write, peek, read);
    LeftInStore(write, peek, read);
    ThreeAnswers([], write, 0.0, peek, 2.0, read, 0.0);
    ThreeStoreAnswers([], write, 0.0, peek, 2.0, read, 0.0);
  }

  lemma GoneFromDictionary(write: Op, peek: Op, read: Op)
    requires write == Set("x", "v", map[], Some(1.0)) && peek == GetEntry("y") && read == Get("x", "gone")
    ensures var d1 := Step([], write, 0.0);
      var d2 := Step(d1.0, peek, 2.0);
      d1.1 == Nothing && d2.1 == Found(None) && Step(d2.0, read, 0.0).1 == Value("gone")
  {
    WriteStep(write, 0.0);
    PeekStep(OneEntry(NewEntry(write, 0.0)), NewEntry(write, 0.0), 2.0);
  }

  lemma LeftInStore(write: Op, peek: Op, read: Op)
    requires write == Set("x", "v", map[], Some(1.0)) && peek == GetEntry("y") && read == Get("x", "gone")
    ensures var s1 := StoreStep([], write, 0.0);
      var s2 := StoreStep(s1.0, peek, 2.0);
      s1.1 == Nothing && s2.1 == Found(None) && StoreStep(s2.0, read, 0.0).1 == Value("v")
  {
    var x := OneEntry(NewEntry(write, 0.0));
    WriteStep(write, 0.0);
    PeekStep(x, NewEntry(write, 0.0), 2.0);
    assert x[1..] == [] && Live(x, 0.0) == x;
    PackedGet(x, read, 0.0);
  }

  lemma ThreeAnswers(d: Dict<Entry>, a: Op, ta: Time, b: Op, tb: Time, c: Op, tc: Time)
    ensures var d1 := Step(d, a, ta);
      var d2 := Step(d1.0, b, tb);
      Answers(d, [(a, ta), (b, tb), (c, tc)]) == [d1.1, d2.1, Step(d2.0, c, tc).1]
  {
    var ops: seq<(Op, Time)> := [(a, ta), (b, tb), (c, tc)];
    var later: seq<(Op, Time)> := [(b, tb), (c, tc)];
    assert ops[1..] == later && later[1..] == [(c, tc)];
    var d1 := Step(d, a, ta);
    OneAnswer(Step(d1.0, b, tb).0, c, tc);
    assert Answers(d1.0, later) == [Step(d1.0, b, tb).1] + Answers(Step(d1.0, b, tb).0, later[1..]);
    assert Answers(d, ops) == [d1.1] + Answers(d1.0, later);
  }

  lemma ThreeStoreAnswers(s: Dict<Stored>, a: Op, ta: Time, b: Op, tb: Time, c: Op, tc: Time)
    ensures var s1 := StoreStep(s, a, ta);
      var s2 := StoreStep(s1.0, b, tb);
      StoreAnswers(s, [(a, ta), (b, tb), (c, tc)]) == [s1.1, s2.1, StoreStep(s2.0, c, tc).1]
  {
    var ops: seq<(Op, Time)> := [(a, ta), (b, tb), (c, tc)];
    var later: seq<(Op, Time)> := [(b, tb), (c, tc)];
    assert ops[1..] == later && later[1..] == [(c, tc)];
    var s1 := StoreStep(s, a, ta);
    OneStoreAnswer(StoreStep(s1.0, b, tb).0, c, tc);
    assert StoreAnswers(s1.0, later) == [StoreStep(s1.0, b, tb).1] + StoreAnswers(StoreStep(s1.0, b, tb).0, later[1..]);
    assert StoreAnswers(s, ops) == [s1.1] + StoreAnswers(s1.0, later);
  }

  // ---------------------------------------------------------------- which clocks keep the answers the same

  /** Operations and the clock readings at which they happen. */
  function Zip(ops: seq<Op>, readings: seq<Time>): seq<(Op, Time)>
    requires |ops| == |readings|
  {
    if ops == [] then [] else [(ops[0], readings[0])] + Zip(ops[1..], readings[1..])
  }

  /** From the second reading on the clock does not go back. */
  predicate Forward(readings: seq<Time>) {
    forall i | 1 <= i < |readings| - 1 :: readings[i] <= readings[i + 1]
  }

  lemma {:induction false} ForwardIsMonotone(ops: seq<Op>, readings: seq<Time>, clock: Time)
    requires |ops| == |readings| && (readings != [] ==> clock <= readings[0])
    requires forall i | 0 <= i < |readings| - 1 :: readings[i] <= readings[i + 1]
    ensures Monotone(Zip(ops, readings), clock)
    decreases |ops|
  {
    if ops != [] {
      forall i | 0 <= i < |readings[1..]| - 1 ensures readings[1..][i] <= readings[1..][i + 1] {
        assert readings[i + 1] <= readings[i + 1 + 1];
      }
      assert Zip(ops, readings)[1..] == Zip(ops[1..], readings[1..]);
      ForwardIsMonotone(ops[1..], readings[1..], readings[0]);
    }
  }

  /** On empty memories the first operation leaves the same entries whenever it happens. */
  lemma ForwardAgrees(ops: seq<Op>, readings: seq<Time>)
    requires |ops| == |readings| && Forward(readings)
    ensures Answers([], Zip(ops, readings)) == StoreAnswers([], Zip(ops, readings))
  {
    if ops != [] {
      var (op, now, later) := (ops[0], readings[0], readings[1..]);
      var d := Step([], op, now).0;
      assert Zip(ops, readings)[1..] == Zip(ops[1..], later);
      SameEntriesIff([], op, now);
      PackedStep([], op, now);
      StepKeyed([], op, now);
      forall i | 0 <= i < |later| - 1 ensures later[i] <= later[i + 1] {
        assert readings[i + 1] <= readings[i + 1 + 1];
      }
      var clock := if later == [] then now else later[0];
      ForwardIsMonotone(ops[1..], later, clock);
      SameAnswers(d, d, clock, Zip(ops[1..], later));
    }
  }

  /** `n` looks at a key nobody wrote. */
  function Peeks(n: nat): (r: seq<Op>)
    ensures |r| == n
  {
    seq(n, i => GetEntry("y"))
  }

  /** Some looks at another key, then a read, then more looks. */
  function Probe(before: nat, after: nat): (r: seq<Op>)
    ensures |r| == before + 1 + after
  {
    Peeks(before) + [Get("x", "gone")] + Peeks(after)
  }

  function OneEntry(e: Entry): Dict<Entry> {
    [("x", e)]
  }

  /** Looks at another key leave the store's entry alone; the dictionary loses it at a reading past its end. */
  lemma PeekStep(d: Dict<Entry>, e: Entry, now: Time)
    requires e.expireAt.Some? && (d == [] || d == OneEntry(e))
    ensures Step(d, GetEntry("y"), now) == (if now > e.expireAt.value then [] else d, Found(None))
    ensures StoreStep(Pack(OneEntry(e)), GetEntry("y"), now) == (Pack(OneEntry(e)), Found(None))
  {
    var x := OneEntry(e);
    assert x[1..] == [] && x[0].0 != "y";
    assert Find(x, "y") == Find(x[1..], "y");
    PackedGetEntry(x, GetEntry("y"), now);
    assert Live(x, now) == if Expired(e, now) then [] else x;
  }

  lemma ReadStep(e: Entry, now: Time)
    requires e.expireAt == Some(now) && e.value == "v"
    ensures Step([], Get("x", "gone"), now).1 == Value("gone")
    ensures StoreStep(Pack(OneEntry(e)), Get("x", "gone"), now).1 == Value("v")
  {
    assert OneEntry(e)[1..] == [] && Live(OneEntry(e), now) == OneEntry(e);
    PackedStep(OneEntry(e), Get("x", "gone"), now);
  }

  /** The first answer and the others. */
  lemma AnswersUnfold(d: Dict<Entry>, s: Dict<Stored>, ops: seq<Op>, readings: seq<Time>)
    requires |ops| == |readings| && ops != []
    ensures Answers(d, Zip(ops, readings))
         == [Step(d, ops[0], readings[0]).1] + Answers(Step(d, ops[0], readings[0]).0, Zip(ops[1..], readings[1..]))
    ensures StoreAnswers(s, Zip(ops, readings))
         == [StoreStep(s, ops[0], readings[0]).1] + StoreAnswers(StoreStep(s, ops[0], readings[0]).0, Zip(ops[1..], readings[1..]))
  {
    assert Zip(ops, readings)[1..] == Zip(ops[1..], readings[1..]);
  }

  lemma DifferInFront(a: Answer, b: Answer, s: seq<Answer>, t: seq<Answer>)
    requires a != b || s != t
    ensures [a] + s != [b] + t
  {
    assert ([a] + s)[0] == a && ([a] + s)[1..] == s;
    assert ([b] + t)[0] == b && ([b] + t)[1..] == t;
  }

  lemma {:induction false} ProbeDiffers(d: Dict<Entry>, e: Entry, before: nat, after: nat, readings: seq<Time>)
    requires |readings| == before + 1 + after && e.expireAt == Some(readings[before]) && e.value == "v"
    requires d == [] || (d == OneEntry(e) && exists k :: 0 <= k < before && readings[k] > readings[before])
    ensures Answers(d, Zip(Probe(before, after), readings))
         != StoreAnswers(Pack(OneEntry(e)), Zip(Probe(before, after), readings))
    decreases before
  {
    var ops := Probe(before, after);
    var s := Pack(OneEntry(e));
    AnswersUnfold(d, s, ops, readings);
    var mine, theirs := Step(d, ops[0], readings[0]), StoreStep(s, ops[0], readings[0]);
    if before == 0 {
      ReadStep(e, readings[0]);
    } else {
      PeekStep(d, e, readings[0]);
      assert ops[0] == GetEntry("y") && ops[1..] == Probe(before - 1, after);
      if mine.0 != [] {
        var k :| 0 <= k < before && readings[k] > readings[before];
        assert k > 0 && readings[1..][k - 1] > readings[1..][before - 1];
      }
      ProbeDiffers(mine.0, e, before - 1, after, readings[1..]);
    }
    DifferInFront(mine.1, theirs.1, Answers(mine.0, Zip(ops[1..], readings[1..])), StoreAnswers(theirs.0, Zip(ops[1..], readings[1..])));
  }

  /** When the clock goes back, an entry that ends at the earlier of two readings tells the memories apart. */
  lemma BackwardDiffers(readings: seq<Time>, i: nat) returns (ops: seq<Op>)
    requires 1 <= i < |readings| - 1 && readings[i] > readings[i + 1]
    ensures |ops| == |readings| && Answers([], Zip(ops, readings)) != StoreAnswers([], Zip(ops, readings))
  {
    var write := Set("x", "v", map[], Some(readings[i + 1] - readings[0]));
    var e := NewEntry(write, readings[0]);
    var rest := Probe(i, |readings| - i - 2);
    ops := [write] + rest;
    assert ops[1..] == rest;
    WriteStep(write, readings[0]);
    AnswersUnfold([], [], ops, readings);
    assert readings[1..][i] == readings[i + 1] && readings[1..][i - 1] > readings[1..][i];
    ProbeDiffers(OneEntry(e), e, i, |readings| - i - 2, readings[1..]);
    DifferInFront(Nothing, Nothing, Answers(OneEntry(e), Zip(rest, readings[1..])),
                  StoreAnswers(Pack(OneEntry(e)), Zip(rest, readings[1..])));
  }

  lemma WriteStep(write: Op, now: Time)
    requires write.Set? && write.key == "x"
    ensures Step([], write, now) == (OneEntry(NewEntry(write, now)), Nothing)
    ensures StoreStep([], write, now) == (Pack(OneEntry(NewEntry(write, now))), Nothing)
  {
    PackedSet([], write, now);
  }

  /**
   Whatever operations happen at them, both memories give the same answers from empty exactly at
   readings that, from the second one on, never go back.
   */
  lemma SameAnswersIff(readings: seq<Time>)
    ensures (forall ops: seq<Op> | |ops| == |readings| :: Answers([], Zip(ops, readings)) == StoreAnswers([], Zip(ops, readings)))
        <==> Forward(readings)
  {
    if Forward(readings) {
      forall ops: seq<Op> | |ops| == |readings|
        ensures Answers([], Zip(ops, readings)) == StoreAnswers([], Zip(ops, readings))
      {
        ForwardAgrees(ops, readings);
      }
    } else {
      var i :| 1 <= i < |readings| - 1 && readings[i] > readings[i + 1];
      var ops := BackwardDiffers(readings, i);
    }
  }

  // ---------------------------------------------------------------- no expired entry is handed out

  predicate Fresh(a: Answer, now: Time) {
    match a
    case Found(Some(e)) => !Expired(e, now)
    case Entries(es) => forall e | e in es :: !Expired(e, now)
    case _ => true
  }

  /** Neither memory returns an expired entry, whatever is in the dictionary. */
  lemma NoExpiredEntry(d: Dict<Entry>, op: Op, now: Time)
    ensures Fresh(Step(d, op, now).1, now)
    ensures op.Get? && Step(d, op, now).1 != Value(op.default) ==>
              exists p :: p in d && p.0 == op.key && !Expired(p.1, now) && Step(d, op, now).1 == Value(p.1.value)
  {
    if op.Get? || op.GetEntry? {
      FindIn(Live(d, now), op.key);
    }
  }

  /** What the store holds may be handed out: foreign, or not expired. */
  predicate Current(stored: Stored, now: Time) {
    stored.Packed? ==> !Expired(stored.entry, now)
  }

  function ValueOf(stored: Stored): string {
    match stored
    case Packed(e) => e.value
    case Foreign(value) => value
  }

  /** Nor does the store-backed one, whatever is in the store. */
  lemma NoExpiredEntryFromStore(s: Dict<Stored>, op: Op, now: Time)
    ensures Fresh(StoreStep(s, op, now).1, now)
    ensures op.Get? && StoreStep(s, op, now).1 != Value(op.default) ==>
              exists p :: p in s && p.0 == op.key && Current(p.1, now) && StoreStep(s, op, now).1 == Value(ValueOf(p.1))
  {
    var clean := Sweep(s, Keys(s), now);
    if op.Select? {
      GatherFresh(clean, Keys(clean), op.wanted, now);
    } else if op.Get? {
      SweepOnlyDrops(s, Keys(s), now);
      FindIn(clean, op.key);
    }
  }

  lemma {:induction false} SweepOnlyDrops(s: Dict<Stored>, keys: seq<string>, now: Time)
    ensures forall p | p in Sweep(s, keys, now) :: p in s
    decreases |keys|
  {
    if keys != [] {
      SweepOnlyDrops(Fetch(s, keys[0], now).0, keys[1..], now);
    }
  }

  lemma {:induction false} GatherFresh(s: Dict<Stored>, keys: seq<string>, wanted: Entry -> bool, now: Time)
    ensures forall e | e in Gather(s, keys, wanted, now).1 :: !Expired(e, now)
    decreases |keys|
  {
    if keys != [] {
      GatherFresh(Fetch(s, keys[0], now).0, keys[1..], wanted, now);
    }
  }
}
