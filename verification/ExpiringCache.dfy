/** The bounded in-memory cache: a map in insertion order whose entries expire. Times are in
    milliseconds. */
module ExpiringCache {
  import opened Wrappers

  datatype Entry<T> = Entry(key: string, value: T, expiresAt: int)

  // ----- the cache as a list of entries -----

  predicate DistinctKeys<T>(entries: seq<Entry<T>>) {
    forall i, j | 0 <= i < j < |entries| :: entries[i].key != entries[j].key
  }

  predicate Has<T>(entries: seq<Entry<T>>, key: string) {
    exists i | 0 <= i < |entries| :: entries[i].key == key
  }

  function IndexOf<T>(entries: seq<Entry<T>>, key: string): (i: nat)
    ensures i <= |entries| && (i < |entries| ==> entries[i].key == key)
    ensures i < |entries| <==> Has(entries, key)
  {
    if entries == [] then 0
    else if entries[0].key == key then 0
    else
      var i := IndexOf(entries[1..], key);
      assert forall j | 0 <= j < |entries| - 1 :: entries[1..][j] == entries[j + 1];
      1 + i
  }

  /** The unexpired entries, in order. */
  function Live<T>(entries: seq<Entry<T>>, now: int): seq<Entry<T>> {
    if entries == [] then []
    else Live(entries[..|entries| - 1], now) + (if entries[|entries| - 1].expiresAt <= now then []
        else [entries[|entries| - 1]])
  }

  function Without<T>(entries: seq<Entry<T>>, key: string): seq<Entry<T>> {
    var i := IndexOf(entries, key);
    if i < |entries| then entries[..i] + entries[i + 1..] else entries
  }

  /** Room is made by dropping the oldest entries, and only for a new key. */
  function Evicted<T>(entries: seq<Entry<T>>, key: string, maxEntries: int): seq<Entry<T>> {
    if Has(entries, key) || |entries| < maxEntries then entries
    else if maxEntries <= 0 then []
    else entries[|entries| - (maxEntries - 1)..]
  }

  /** A known key keeps its place; a new one goes last. */
  function Put<T>(entries: seq<Entry<T>>, entry: Entry<T>): seq<Entry<T>> {
    var i := IndexOf(entries, entry.key);
    if i < |entries| then entries[i := entry] else entries + [entry]
  }

  function Written<T>(entries: seq<Entry<T>>, key: string, value: T, cacheSeconds: int, maxEntries: int,
      now: int): seq<Entry<T>> {
    var live := Live(entries, now);
    if cacheSeconds <= 0 then Without(live, key)
    else Put(Evicted(live, key, maxEntries), Entry(key, value, now + cacheSeconds * 1000))
  }

  function Lookup<T>(entries: seq<Entry<T>>, key: string): Option<T> {
    var i := IndexOf(entries, key);
    if i < |entries| then Some(entries[i].value) else None
  }

  lemma {:induction false} LiveHas<T>(entries: seq<Entry<T>>, now: int, entry: Entry<T>)
    ensures entry in Live(entries, now) <==> entry in entries && entry.expiresAt > now
    decreases |entries|
  {
    if entries != [] {
      var n := |entries| - 1;
      LiveHas(entries[..n], now, entry);
      assert entries == entries[..n] + [entries[n]];
    }
  }

  lemma {:induction false} LiveIsShort<T>(entries: seq<Entry<T>>, now: int)
    ensures |Live(entries, now)| <= |entries|
    decreases |entries|
  {
    if entries != [] {
      LiveIsShort(entries[..|entries| - 1], now);
    }
  }

  lemma OneMoreKey<T>(entries: seq<Entry<T>>, last: Entry<T>)
    requires DistinctKeys(entries) && !Has(entries, last.key)
    ensures DistinctKeys(entries + [last])
  {
  }

  lemma LiveHasNoMoreKeys<T>(entries: seq<Entry<T>>, now: int, key: string)
    requires !Has(entries, key)
    ensures !Has(Live(entries, now), key)
  {
    forall i | 0 <= i < |Live(entries, now)| ensures Live(entries, now)[i].key != key {
      LiveHas(entries, now, Live(entries, now)[i]);
      var j :| 0 <= j < |entries| && entries[j] == Live(entries, now)[i];
    }
  }

  lemma {:induction false} LiveIsDistinct<T>(entries: seq<Entry<T>>, now: int)
    requires DistinctKeys(entries)
    ensures DistinctKeys(Live(entries, now))
    decreases |entries|
  {
    if entries != [] {
      var earlier, last := entries[..|entries| - 1], entries[|entries| - 1];
      LiveIsDistinct(earlier, now);
      LiveHasNoMoreKeys(earlier, now, last.key);
      OneMoreKey(Live(earlier, now), last);
    }
  }

  /** Pruning keeps exactly the unexpired entries. */
  lemma LiveFacts<T>(entries: seq<Entry<T>>, now: int)
    requires DistinctKeys(entries)
    ensures DistinctKeys(Live(entries, now)) && |Live(entries, now)| <= |entries|
    ensures forall entry :: entry in Live(entries, now) <==> entry in entries && entry.expiresAt > now
  {
    LiveIsDistinct(entries, now);
    LiveIsShort(entries, now);
    forall entry ensures entry in Live(entries, now) <==> entry in entries && entry.expiresAt > now {
      LiveHas(entries, now, entry);
    }
  }

  /** A read finds a value exactly when an unexpired entry holds it under the key. */
  lemma ReadsIff<T>(entries: seq<Entry<T>>, key: string, now: int, value: T)
    requires DistinctKeys(entries)
    ensures Lookup(Live(entries, now), key) == Some(value) <==>
            exists entry :: entry in entries && entry.key == key && entry.expiresAt > now && entry.value == value
  {
    LiveFacts(entries, now);
    var live := Live(entries, now);
    var i := IndexOf(live, key);
    if i < |live| {
      assert live[i] in live;
    }
    if entry :| entry in entries && entry.key == key && entry.expiresAt > now && entry.value == value {
      var j :| 0 <= j < |live| && live[j] == entry;
      assert Has(live, key) && i == j;
    }
  }

  lemma {:induction false} LiveAppend<T>(a: seq<Entry<T>>, b: seq<Entry<T>>, now: int)
    ensures Live(a + b, now) == Live(a, now) + Live(b, now)
    decreases |b|
  {
    if b == [] {
      assert a + b == a;
    } else {
      var n := |b| - 1;
      LiveAppend(a, b[..n], now);
      assert (a + b)[..|a + b| - 1] == a + b[..n];
    }
  }

  lemma {:induction false} UnexpiredStay<T>(entries: seq<Entry<T>>, now: int)
    requires forall i | 0 <= i < |entries| :: entries[i].expiresAt > now
    ensures Live(entries, now) == entries
    decreases |entries|
  {
    if entries != [] {
      UnexpiredStay(entries[..|entries| - 1], now);
    }
  }

  // ----- the cache as an object -----

  class Cache<T> {
    var entries: seq<Entry<T>>

    constructor ()
      ensures entries == []
    {
      entries := [];
    }

    method PruneExpired(now: int)
      modifies this
      ensures entries == Live(old(entries), now)
    {
      var i := 0;
      while i < |entries|
        invariant 0 <= i <= |entries|
        invariant forall j | 0 <= j < i :: entries[j].expiresAt > now
        invariant Live(entries, now) == Live(old(entries), now)
        decreases |entries| - i
      {
        if entries[i].expiresAt <= now {
          ghost var before := entries;
          entries := entries[..i] + entries[i + 1..];
          Skipped(before, i, now);
        } else {
          i := i + 1;
        }
      }
      UnexpiredStay(entries, now);
    }

    method Read(key: string, now: int) returns (value: Option<T>)
      modifies this
      ensures entries == Live(old(entries), now)
      ensures value == Lookup(entries, key)
    {
      PruneExpired(now);
      var i := IndexOf(entries, key);
      value := if i < |entries| then Some(entries[i].value) else None;
    }

    method Delete(key: string)
      modifies this
      ensures entries == Without(old(entries), key)
    {
      var i := IndexOf(entries, key);
      if i < |entries| {
        entries := entries[..i] + entries[i + 1..];
      }
    }

    method MakeRoom(key: string, maxEntries: int)
      requires DistinctKeys(entries)
      modifies this
      ensures entries == Evicted(old(entries), key, maxEntries)
    {
      ghost var before, dropped := entries, 0;
      while !Has(entries, key) && |entries| >= maxEntries
        invariant 0 <= dropped <= |before| && entries == before[dropped..]
        invariant dropped > 0 ==> !Has(before, key) && |before| >= maxEntries && |entries| + 1 >= maxEntries
        decreases |entries|
      {
        if |entries| == 0 {
          break;
        }
        FirstIsDropped(before, dropped);
        Delete(entries[0].key);
        dropped := dropped + 1;
      }
      if !Has(before, key) {
        SuffixHasNoMore(before, dropped, key);
      }
    }

    method Write(key: string, value: T, cacheSeconds: int, maxEntries: int, now: int)
      requires DistinctKeys(entries)
      modifies this
      ensures entries == Written(old(entries), key, value, cacheSeconds, maxEntries, now)
    {
      LiveFacts(entries, now);
      PruneExpired(now);
      if cacheSeconds <= 0 {
        Delete(key);
        return;
      }
      MakeRoom(key, maxEntries);
      var entry := Entry(key, value, now + cacheSeconds * 1000);
      var i := IndexOf(entries, key);
      entries := if i < |entries| then entries[i := entry] else entries + [entry];
    }
  }

  lemma FirstIsDropped<T>(entries: seq<Entry<T>>, start: nat)
    requires start < |entries|
    ensures Without(entries[start..], entries[start].key) == entries[start + 1..]
  {
  }

  lemma SuffixHasNoMore<T>(entries: seq<Entry<T>>, start: nat, key: string)
    requires start <= |entries| && !Has(entries, key)
    ensures !Has(entries[start..], key)
  {
  }

  lemma {:induction false} Skipped<T>(entries: seq<Entry<T>>, i: nat, now: int)
    requires i < |entries| && entries[i].expiresAt <= now
    ensures Live(entries[..i] + entries[i + 1..], now) == Live(entries, now)
  {
    assert entries == (entries[..i] + [entries[i]]) + entries[i + 1..];
    LiveAppend(entries[..i] + [entries[i]], entries[i + 1..], now);
    LiveAppend(entries[..i], [entries[i]], now);
    LiveAppend(entries[..i], entries[i + 1..], now);
    assert Live([entries[i]], now) == [];
  }
}
