/** The two memories as objects, each operation with one clock reading. */
module MemoryStores {
  import opened Prelude
  import opened OrderedDicts
  import opened Memory

  class InMemoryMemory {
    var data: Dict<Entry>

    ghost predicate Valid()
      reads this
    {
      Keyed(data)
    }

    constructor ()
      ensures Valid() && data == []
    {
      data := [];
    }

    /** The expired keys are collected first, then deleted. */
    method CleanupExpired(now: Time)
      requires Valid()
      modifies this
      ensures Valid() && data == Live(old(data), now)
    {
      var expired := [];
      for i := 0 to |data|
        invariant data == old(data) && expired == ExpiredKeys(data[..i], now)
      {
        PrefixStep(data, i);
        ExpiredKeysSnoc(data[..i], data[i], now);
        if Expired(data[i].1, now) {
          expired := expired + [data[i].0];
        }
      }
      assert data[..|data|] == data;
      for i := 0 to |expired|
        invariant data == RemoveAll(old(data), expired[..i])
      {
        PrefixStep(expired, i);
        RemoveAllSnoc(old(data), expired[..i], expired[i]);
        data := Remove(data, expired[i]);
      }
      assert expired[..|expired|] == expired;
      RemoveExpiredKeys(old(data), now);
      LiveKeyed(old(data), now);
    }

    method Get(key: string, default: string, now: Time) returns (r: string)
      requires Valid()
      modifies this
      ensures Valid() && (data, Value(r)) == Step(old(data), Op.Get(key, default), now)
    {
      CleanupExpired(now);
      match Find<Entry>(data, key)
      case Some(entry) => r := entry.value;
      case None => r := default;
    }

    method Set(key: string, value: string, metadata: map<string, string>, ttl: Option<real>, now: Time)
      requires Valid()
      modifies this
      ensures Valid() && data == Step(old(data), Op.Set(key, value, metadata, ttl), now).0
    {
      ghost var before := data;
      CleanupExpired(now);
      var expireAt := if ttl.Some? then Some(now + ttl.value) else None;
      var entry := Entry(key, value, metadata, now, expireAt);
      SetIsStep(before, key, value, metadata, ttl, now, entry);
      data := Put(data, key, entry);
    }

    method Delete(key: string, now: Time)
      requires Valid()
      modifies this
      ensures Valid() && data == Step(old(data), Op.Delete(key), now).0
    {
      CleanupExpired(now);
      RemoveKeyed(data, key);
      if Find(data, key).Some? {
        data := Remove(data, key);
      } else {
        RemoveAbsent(data, key);
      }
    }

    method Clear(now: Time)
      modifies this
      ensures Valid() && data == Step(old(data), Op.Clear, now).0
    {
      data := [];
    }

    method GetEntry(key: string, now: Time) returns (r: Option<Entry>)
      requires Valid()
      modifies this
      ensures Valid() && (data, Found(r)) == Step(old(data), Op.GetEntry(key), now)
    {
      CleanupExpired(now);
      r := Find(data, key);
    }

    /** The common loop of `search` and `filter`. */
    method Select(wanted: Entry -> bool, now: Time) returns (results: seq<Entry>)
      requires Valid()
      modifies this
      ensures Valid() && (data, Entries(results)) == Step(old(data), Op.Select(wanted), now)
    {
      CleanupExpired(now);
      results := [];
      ghost var live := data;
      for i := 0 to |data|
        invariant data == live && results == Chosen(data[..i], wanted)
      {
        PrefixStep(data, i);
        ChosenSnoc(data[..i], data[i], wanted);
        if wanted(data[i].1) {
          results := results + [data[i].1];
        }
      }
      assert data[..|data|] == data;
    }

    method Filter(filters: map<string, string>, now: Time) returns (results: seq<Entry>)
      requires Valid()
      modifies this
      ensures Valid() && (data, Entries(results)) == Step(old(data), Op.Select(ByMetadata(filters)), now)
      ensures forall e | e in results :: HasMetadata(e, filters) && !Expired(e, now)
    {
      results := Select(ByMetadata(filters), now);
    }
  }

  class StorageBackedMemory {
    /** What the storage backend holds; nothing else writes to it. */
    var store: Dict<Stored>

    constructor (store: Dict<Stored>)
      ensures this.store == store
    {
      this.store := store;
    }

    method GetEntry(key: string, now: Time) returns (r: Option<Entry>)
      modifies this
      ensures (store, r) == Fetch(old(store), key, now)
      ensures (store, Found(r)) == StoreStep(old(store), Op.GetEntry(key), now)
    {
      match Find<Stored>(store, key)
      case None => r := None;
      case Some(Foreign(value)) => r := Some(Entry(key, value, map[], now, None));
      case Some(Packed(entry)) =>
        if Expired(entry, now) {
          store := Remove(store, key);
          r := None;
        } else {
          r := Some(entry);
        }
    }

    /** Every key is fetched. With one clock reading nothing fetched has expired, so nothing is left to delete afterwards. */
    method CleanupExpired(now: Time)
      modifies this
      ensures store == Sweep(old(store), Keys(old(store)), now)
    {
      var keys := Keys(store);
      for i := 0 to |keys|
        invariant Sweep(store, keys[i..], now) == Sweep(old(store), keys, now)
      {
        assert keys[i..][1..] == keys[i + 1..];
        var entry := GetEntry(keys[i], now);
        assert entry.Some? ==> !Expired(entry.value, now);
      }
    }

    method Get(key: string, default: string, now: Time) returns (r: string)
      modifies this
      ensures (store, Value(r)) == StoreStep(old(store), Op.Get(key, default), now)
    {
      CleanupExpired(now);
      var entry := GetEntry(key, now);
      r := if entry.Some? then entry.value.value else default;
    }

    method Set(key: string, value: string, metadata: map<string, string>, ttl: Option<real>, now: Time)
      modifies this
      ensures store == StoreStep(old(store), Op.Set(key, value, metadata, ttl), now).0
    {
      CleanupExpired(now);
      var expireAt := if ttl.Some? then Some(now + ttl.value) else None;
      store := Put(store, key, Packed(Entry(key, value, metadata, now, expireAt)));
    }

    method Delete(key: string, now: Time)
      modifies this
      ensures store == StoreStep(old(store), Op.Delete(key), now).0
    {
      CleanupExpired(now);
      store := Remove(store, key);
    }

    method Clear(now: Time)
      modifies this
      ensures store == StoreStep(old(store), Op.Clear, now).0
    {
      store := [];
    }

    method Select(wanted: Entry -> bool, now: Time) returns (results: seq<Entry>)
      modifies this
      ensures (store, Entries(results)) == StoreStep(old(store), Op.Select(wanted), now)
    {
      CleanupExpired(now);
      results := [];
      var keys := Keys(store);
      ghost var clean := store;
      for i := 0 to |keys|
        invariant Gather(store, keys[i..], wanted, now).0 == Gather(clean, keys, wanted, now).0
        invariant results + Gather(store, keys[i..], wanted, now).1 == Gather(clean, keys, wanted, now).1
      {
        GatherStep(store, keys, i, wanted, now, results);
        var entry := GetEntry(keys[i], now);
        if entry.Some? && wanted(entry.value) {
          results := results + [entry.value];
        } else {
          assert results + [] == results;
        }
      }
      assert results + [] == results;
    }

    method Filter(filters: map<string, string>, now: Time) returns (results: seq<Entry>)
      modifies this
      ensures (store, Entries(results)) == StoreStep(old(store), Op.Select(ByMetadata(filters)), now)
    {
      results := Select(ByMetadata(filters), now);
    }
  }

  // ---------------------------------------------------------------- the loops

  lemma SetIsStep(d: Dict<Entry>, key: string, value: string, metadata: map<string, string>, ttl: Option<real>, now: Time, entry: Entry)
    requires Keyed(d) && entry == Entry(key, value, metadata, now, if ttl.Some? then Some(now + ttl.value) else None)
    ensures Step(d, Op.Set(key, value, metadata, ttl), now).0 == Put(Live(d, now), key, entry)
    ensures Keyed(Put(Live(d, now), key, entry))
  {
    LiveKeyed(d, now);
    PutKeyed(Live(d, now), key, entry);
    assert NewEntry(Op.Set(key, value, metadata, ttl), now) == entry;
  }

  lemma GatherStep(s: Dict<Stored>, keys: seq<string>, i: nat, wanted: Entry -> bool, now: Time, results: seq<Entry>)
    requires i < |keys|
    ensures var (after, e) := Fetch(s, keys[i], now);
      var more := if e.Some? && wanted(e.value) then [e.value] else [];
      && Gather(s, keys[i..], wanted, now).0 == Gather(after, keys[i + 1..], wanted, now).0
      && results + Gather(s, keys[i..], wanted, now).1 == results + more + Gather(after, keys[i + 1..], wanted, now).1
  {
    assert keys[i..][1..] == keys[i + 1..];
  }

  function ExpiredKeys(d: Dict<Entry>, now: Time): seq<string> {
    if d == [] then [] else (if Expired(d[0].1, now) then [d[0].0] else []) + ExpiredKeys(d[1..], now)
  }

  lemma {:induction false} ExpiredKeysSnoc(d: Dict<Entry>, p: (string, Entry), now: Time)
    ensures ExpiredKeys(d + [p], now) == ExpiredKeys(d, now) + if Expired(p.1, now) then [p.0] else []
  {
    if d == [] {
      assert [p][1..] == [];
    } else {
      assert (d + [p])[1..] == d[1..] + [p];
      ExpiredKeysSnoc(d[1..], p, now);
    }
  }

  lemma {:induction false} ChosenSnoc(d: Dict<Entry>, p: (string, Entry), wanted: Entry -> bool)
    ensures Chosen(d + [p], wanted) == Chosen(d, wanted) + if wanted(p.1) then [p.1] else []
  {
    if d == [] {
      assert [p][1..] == [];
    } else {
      assert (d + [p])[1..] == d[1..] + [p];
      ChosenSnoc(d[1..], p, wanted);
    }
  }

  function RemoveAll(d: Dict<Entry>, keys: seq<string>): Dict<Entry>
    decreases |keys|
  {
    if keys == [] then d else RemoveAll(Remove(d, keys[0]), keys[1..])
  }

  lemma {:induction false} RemoveAllSnoc(d: Dict<Entry>, keys: seq<string>, k: string)
    ensures RemoveAll(d, keys + [k]) == Remove(RemoveAll(d, keys), k)
    decreases |keys|
  {
    if keys == [] {
      assert [k][1..] == [];
    } else {
      assert (keys + [k])[1..] == keys[1..] + [k];
      RemoveAllSnoc(Remove(d, keys[0]), keys[1..], k);
    }
  }

  /** Keys that do not meet the first pair leave it in front. */
  lemma {:induction false} RemoveAllBehind(d: Dict<Entry>, keys: seq<string>)
    requires d != [] && d[0].0 !in keys
    ensures RemoveAll(d, keys) == [d[0]] + RemoveAll(d[1..], keys)
    decreases |keys|
  {
    if keys != [] {
      assert keys[0] in keys && forall k | k in keys[1..] :: k in keys;
      assert Remove(d, keys[0]) == [d[0]] + Remove(d[1..], keys[0]);
      RemoveAllBehind([d[0]] + Remove(d[1..], keys[0]), keys[1..]);
      assert ([d[0]] + Remove(d[1..], keys[0]))[1..] == Remove(d[1..], keys[0]);
    } else {
      assert d == [d[0]] + d[1..];
    }
  }

  lemma {:induction false} ExpiredKeysAreKeys(d: Dict<Entry>, now: Time)
    ensures forall k | k in ExpiredKeys(d, now) :: exists p :: p in d && p.0 == k
  {
    if d != [] {
      ExpiredKeysAreKeys(d[1..], now);
      assert d[0] in d;
      forall k | k in ExpiredKeys(d, now) ensures exists p :: p in d && p.0 == k {
        if k != d[0].0 {
          assert k in ExpiredKeys(d[1..], now);
          var p :| p in d[1..] && p.0 == k;
          assert p in d;
        }
      }
    }
  }

  /** Removing the expired keys leaves the live entries. */
  lemma {:induction false} RemoveExpiredKeys(d: Dict<Entry>, now: Time)
    requires Keyed(d)
    ensures RemoveAll(d, ExpiredKeys(d, now)) == Live(d, now)
  {
    if d != [] {
      HeadIsUnique(d);
      RemoveExpiredKeys(d[1..], now);
      if Expired(d[0].1, now) {
        assert ExpiredKeys(d, now)[1..] == ExpiredKeys(d[1..], now);
        RemoveAbsent(d[1..], d[0].0);
      } else {
        assert ExpiredKeys(d, now) == ExpiredKeys(d[1..], now);
        ExpiredKeysAreKeys(d[1..], now);
        RemoveAllBehind(d, ExpiredKeys(d[1..], now));
      }
    }
  }
}
