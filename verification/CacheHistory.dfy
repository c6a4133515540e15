/** What a sequence of reads and writes can see of a bounded cache. */
module CacheHistory {
  import opened Wrappers
  import opened ExpiringCache

  datatype Access<T> =
    | ReadAccess(key: string, now: int)
    | WriteAccess(key: string, value: T, cacheSeconds: int, now: int)

  function After<T>(entries: seq<Entry<T>>, access: Access<T>, maxEntries: int): seq<Entry<T>> {
    match access
    case ReadAccess(_, now) => Live(entries, now)
    case WriteAccess(key, value, cacheSeconds, now) => Written(entries, key, value, cacheSeconds, maxEntries, now)
  }

  function Contents<T>(accesses: seq<Access<T>>, maxEntries: int): seq<Entry<T>> {
    if accesses == [] then [] else After(Contents(accesses[..|accesses| - 1], maxEntries), accesses[|accesses| - 1],
        maxEntries)
  }

  predicate IsWrite<T>(access: Access<T>, key: string) {
    access.WriteAccess? && access.key == key
  }

  /** The last write to the key. */
  function LatestWrite<T>(accesses: seq<Access<T>>, key: string): (w: Option<Access<T>>)
    ensures w.Some? ==> w.value in accesses && IsWrite(w.value, key)
    ensures w.None? ==> forall i | 0 <= i < |accesses| :: !IsWrite(accesses[i], key)
  {
    if accesses == [] then None
    else
      var last := accesses[|accesses| - 1];
      if IsWrite(last, key) then Some(last) else LatestWrite(accesses[..|accesses| - 1], key)
  }

  /** The entry is the one that the last write to its key put there. */
  ghost predicate FromLatest<T>(entry: Entry<T>, accesses: seq<Access<T>>) {
    match LatestWrite(accesses, entry.key)
    case None => false
    case Some(w) => w.cacheSeconds > 0 && entry.value == w.value && entry.expiresAt == w.now + w.cacheSeconds * 1000
  }

  ghost predicate Tracked<T>(entries: seq<Entry<T>>, accesses: seq<Access<T>>, maxEntries: int) {
    && DistinctKeys(entries)
    && (maxEntries >= 1 ==> |entries| <= maxEntries)
    && forall i | 0 <= i < |entries| :: FromLatest(entries[i], accesses)
  }

  lemma ReadKeepsTracked<T>(entries: seq<Entry<T>>, accesses: seq<Access<T>>, maxEntries: int,
      key: string, now: int)
    requires Tracked(entries, accesses, maxEntries)
    ensures Tracked(Live(entries, now), accesses + [ReadAccess(key, now)], maxEntries)
  {
    var access: Access<T> := ReadAccess(key, now);
    var longer := accesses + [access];
    assert longer[..|accesses|] == accesses;
    LiveFacts(entries, now);
    forall i | 0 <= i < |Live(entries, now)| ensures FromLatest(Live(entries, now)[i], longer) {
      LiveHas(entries, now, Live(entries, now)[i]);
      var j :| 0 <= j < |entries| && entries[j] == Live(entries, now)[i];
    }
  }

  lemma DropKeepsTracked<T>(entries: seq<Entry<T>>, key: string)
    requires DistinctKeys(entries)
    ensures DistinctKeys(Without(entries, key)) && !Has(Without(entries, key), key)
        && |Without(entries, key)| <= |entries|
    ensures forall i | 0 <= i < |Without(entries, key)| :: Without(entries, key)[i] in entries
  {
    var k, kept := IndexOf(entries, key), Without(entries, key);
    if k < |entries| {
      assert forall i | 0 <= i < |kept| :: kept[i] == entries[if i < k then i else i + 1];
    }
  }

  /** Entries that another write to `key` leaves alone. */
  lemma OtherKeysStayLatest<T>(entry: Entry<T>, accesses: seq<Access<T>>, access: Access<T>)
    requires FromLatest(entry, accesses) && !IsWrite(access, entry.key)
    ensures FromLatest(entry, accesses + [access])
  {
  }

  lemma NewestIsLatest<T>(accesses: seq<Access<T>>, key: string, value: T, cacheSeconds: int,
      now: int)
    requires cacheSeconds > 0
    ensures FromLatest(Entry(key, value, now + cacheSeconds * 1000),
        accesses + [WriteAccess(key, value, cacheSeconds, now)])
  {
  }

  lemma DeleteKeepsTracked<T>(live: seq<Entry<T>>, accesses: seq<Access<T>>, maxEntries: int,
      key: string, value: T, cacheSeconds: int, now: int)
    requires Tracked(live, accesses, maxEntries) && cacheSeconds <= 0
    ensures Tracked(Without(live, key), accesses + [WriteAccess(key, value, cacheSeconds, now)], maxEntries)
  {
    DropKeepsTracked(live, key);
    forall i | 0 <= i < |Without(live, key)| ensures FromLatest(Without(live, key)[i],
        accesses + [WriteAccess(key, value, cacheSeconds, now)]) {
      var j :| 0 <= j < |live| && live[j] == Without(live, key)[i];
      OtherKeysStayLatest(live[j], accesses, WriteAccess(key, value, cacheSeconds, now));
    }
  }

  lemma PutKeepsTracked<T>(live: seq<Entry<T>>, accesses: seq<Access<T>>, maxEntries: int,
      key: string, value: T, cacheSeconds: int, now: int)
    requires Tracked(live, accesses, maxEntries) && cacheSeconds > 0
    ensures Tracked(Put(Evicted(live, key, maxEntries), Entry(key, value, now + cacheSeconds * 1000)),
                    accesses + [WriteAccess(key, value, cacheSeconds, now)], maxEntries)
  {
    var access := WriteAccess(key, value, cacheSeconds, now);
    var kept := Evicted(live, key, maxEntries);
    var after := Put(kept, Entry(key, value, now + cacheSeconds * 1000));
    NewestIsLatest(accesses, key, value, cacheSeconds, now);
    forall i | 0 <= i < |after| && after[i].key != key ensures FromLatest(after[i], accesses + [access]) {
      assert after[i] == kept[i];
      var j :| 0 <= j < |live| && live[j] == kept[i];
      OtherKeysStayLatest(live[j], accesses, access);
    }
  }

  lemma LiveStaysTracked<T>(entries: seq<Entry<T>>, accesses: seq<Access<T>>, maxEntries: int,
      now: int)
    requires Tracked(entries, accesses, maxEntries)
    ensures Tracked(Live(entries, now), accesses, maxEntries)
  {
    LiveFacts(entries, now);
    forall i | 0 <= i < |Live(entries, now)| ensures FromLatest(Live(entries, now)[i], accesses) {
      LiveHas(entries, now, Live(entries, now)[i]);
      var j :| 0 <= j < |entries| && entries[j] == Live(entries, now)[i];
    }
  }

  lemma WriteKeepsTracked<T>(entries: seq<Entry<T>>, accesses: seq<Access<T>>, maxEntries: int,
      key: string, value: T, cacheSeconds: int, now: int)
    requires Tracked(entries, accesses, maxEntries)
    ensures Tracked(Written(entries, key, value, cacheSeconds, maxEntries, now),
                accesses + [WriteAccess(key, value, cacheSeconds, now)], maxEntries)
  {
    LiveStaysTracked(entries, accesses, maxEntries, now);
    if cacheSeconds <= 0 {
      DeleteKeepsTracked(Live(entries, now), accesses, maxEntries, key, value, cacheSeconds, now);
    } else {
      PutKeepsTracked(Live(entries, now), accesses, maxEntries, key, value, cacheSeconds, now);
    }
  }

  lemma AccessKeepsTracked<T>(entries: seq<Entry<T>>, accesses: seq<Access<T>>, maxEntries: int,
      access: Access<T>)
    requires Tracked(entries, accesses, maxEntries)
    ensures Tracked(After(entries, access, maxEntries), accesses + [access], maxEntries)
  {
    match access {
      case ReadAccess(key, now) => ReadKeepsTracked(entries, accesses, maxEntries, key, now);
      case WriteAccess(key, value, cacheSeconds, now) =>
        WriteKeepsTracked(entries, accesses, maxEntries, key, value, cacheSeconds, now);
    }
  }

  lemma {:induction false} RunKeepsTracked<T>(accesses: seq<Access<T>>, maxEntries: int)
    ensures Tracked(Contents(accesses, maxEntries), accesses, maxEntries)
    decreases |accesses|
  {
    if accesses != [] {
      var earlier, last := accesses[..|accesses| - 1], accesses[|accesses| - 1];
      RunKeepsTracked(earlier, maxEntries);
      AccessKeepsTracked(Contents(earlier, maxEntries), earlier, maxEntries, last);
      assert earlier + [last] == accesses;
    }
  }

  // ----- results -----

  /** With room for at least one entry the cache never holds more than it has room for. */
  lemma NeverOverCapacity<T>(accesses: seq<Access<T>>, maxEntries: int)
    requires maxEntries >= 1
    ensures |Contents(accesses, maxEntries)| <= maxEntries
  {
    RunKeepsTracked(accesses, maxEntries);
  }

  /** Without room one write is already too many. */
  lemma NoRoomIsExceeded<T>(maxEntries: int, key: string, value: T, cacheSeconds: int, now: int)
    requires maxEntries < 1 && cacheSeconds > 0
    ensures |Contents([WriteAccess(key, value, cacheSeconds, now)], maxEntries)| > maxEntries
  {
  }

  /** A hit returns what the last write to the key stored, and that has not expired. */
  lemma HitReturnsLatestUnexpiredValue<T>(accesses: seq<Access<T>>, maxEntries: int, key: string,
      now: int, value: T)
    requires Lookup(Contents(accesses + [ReadAccess(key, now)], maxEntries), key) == Some(value)
    ensures LatestWrite(accesses, key).Some?
    ensures var w := LatestWrite(accesses, key).value;
            w.value == value && w.cacheSeconds > 0 && now < w.now + w.cacheSeconds * 1000
  {
    var access: Access<T> := ReadAccess(key, now);
    assert (accesses + [access])[..|accesses|] == accesses;
    var before := Contents(accesses, maxEntries);
    RunKeepsTracked(accesses, maxEntries);
    LiveFacts(before, now);
    var i := IndexOf(Live(before, now), key);
    var j :| 0 <= j < |before| && before[j] == Live(before, now)[i];
    assert FromLatest(before[j], accesses);
  }

  lemma EvictedFacts<T>(live: seq<Entry<T>>, key: string, maxEntries: int)
    requires DistinctKeys(live) && maxEntries >= 1
    ensures var kept := Evicted(live, key, maxEntries);
            && |kept| <= |live| && kept == live[|live| - |kept|..] && DistinctKeys(kept)
            && (|kept| < |live| ==> !Has(live, key) && |live| >= maxEntries && |kept| == maxEntries - 1)
            && (Has(kept, key) <==> Has(live, key))
  {
  }

  lemma FoundAt<T>(entries: seq<Entry<T>>, i: nat)
    requires i < |entries| && DistinctKeys(entries)
    ensures Has(entries, entries[i].key) && IndexOf(entries, entries[i].key) == i
  {
  }

  lemma PutFacts<T>(kept: seq<Entry<T>>, entry: Entry<T>)
    requires DistinctKeys(kept)
    ensures var after := Put(kept, entry);
            && DistinctKeys(after) && Has(after, entry.key) && after[IndexOf(after, entry.key)] == entry
            && |after| == |kept| + (if Has(kept, entry.key) then 0 else 1)
            && forall k | 0 <= k < |kept| && kept[k].key != entry.key :: after[k] == kept[k]
  {
    FoundAt(Put(kept, entry), IndexOf(kept, entry.key));
  }

  /** A value that was just written is found until it expires. */
  lemma WrittenIsFound<T>(accesses: seq<Access<T>>, maxEntries: int, key: string, value: T, cacheSeconds: int,
      written: int, now: int)
    requires maxEntries >= 1 && cacheSeconds > 0
    ensures var history := accesses + [WriteAccess(key, value, cacheSeconds, written)];
            now < written + cacheSeconds * 1000 <==>
            Lookup(Contents(history + [ReadAccess(key, now)], maxEntries), key) == Some(value)
  {
    var history := accesses + [WriteAccess(key, value, cacheSeconds, written)];
    RunKeepsTracked(accesses, maxEntries);
    ContentsAfter(accesses, WriteAccess(key, value, cacheSeconds, written), maxEntries);
    ContentsAfter(history, ReadAccess(key, now), maxEntries);
    var after := Contents(history, maxEntries);
    WrittenFacts(Contents(accesses, maxEntries), key, value, cacheSeconds, maxEntries, written);
    ReadsIff(after, key, now, value);
    var entry := after[IndexOf(after, key)];
    assert entry in after && entry == Entry(key, value, written + cacheSeconds * 1000);
  }

  /** Entries keep their order, and an unexpired entry is dropped for a new key only when the cache
      is full, and only together with every entry before it: first in, first out. */
  lemma EvictionFollowsInsertion<T>(live: seq<Entry<T>>, entry: Entry<T>, maxEntries: int, i: nat,
      j: nat)
    requires DistinctKeys(live) && maxEntries >= 1
    requires i < j < |live| && live[i].key != entry.key && live[j].key != entry.key
    ensures var after := Put(Evicted(live, entry.key, maxEntries), entry);
            && (Has(after, live[i].key) ==>
                  Has(after, live[j].key) && IndexOf(after, live[i].key) < IndexOf(after, live[j].key))
            && (!Has(after, live[i].key) ==> !Has(live, entry.key) && |live| >= maxEntries && |after| == maxEntries)
  {
    var kept := Evicted(live, entry.key, maxEntries);
    EvictedFacts(live, entry.key, maxEntries);
    PutFacts(kept, entry);
    var shift := |live| - |kept|;
    if shift <= i {
      assert kept[i - shift] == live[i] && kept[j - shift] == live[j];
      FoundAt(Put(kept, entry), i - shift);
      FoundAt(Put(kept, entry), j - shift);
    } else {
      OnlyTheseKeys(kept, entry, live[i].key);
      assert forall k | 0 <= k < |kept| :: kept[k] == live[k + shift];
    }
  }

  lemma OnlyTheseKeys<T>(kept: seq<Entry<T>>, entry: Entry<T>, key: string)
    requires key != entry.key
    ensures Has(Put(kept, entry), key) ==> Has(kept, key)
  {
  }

  // ----- the two-level use -----

  const MAX_METADATA_ENTRIES := 64

  datatype Durable<T> = Durable(value: T, expiresAt: int)

  /** Seconds until the durable entry expires, by a clock in milliseconds. */
  function SecondsRemaining(expiresAt: int, nowMs: int): (r: nat)
    ensures r > 0 ==> expiresAt * 1000 - nowMs <= r * 1000 < expiresAt * 1000 - nowMs + 1000
  {
    if expiresAt - nowMs / 1000 > 0 then expiresAt - nowMs / 1000 else 0
  }

  /** What a lookup that misses ends with: the entry of the durable store, with the time at which its
      remaining seconds are computed, or what was fetched. */
  datatype Answer<T> = FromStore(entry: Durable<T>, remainingMs: int) | FromNetwork(fetched: T, seconds: int)

  function ValueOf<T>(answer: Answer<T>): T {
    if answer.FromStore? then answer.entry.value else answer.fetched
  }

  function WriteOf<T>(key: string, answer: Answer<T>, writtenMs: int): Access<T> {
    match answer
    case FromStore(entry, remainingMs) =>
      WriteAccess(key, entry.value, SecondsRemaining(entry.expiresAt, remainingMs), writtenMs)
    case FromNetwork(fetched, seconds) => WriteAccess(key, fetched, seconds, writtenMs)
  }

  /** The first half of resolving a key: a lookup in memory. On a miss the request awaits the durable
      store and the network. */
  method LookUp<T>(memory: Cache<T>, key: string, lookupMs: int, ghost history: seq<Access<T>>)
    returns (cached: Option<T>)
    requires memory.entries == Contents(history, MAX_METADATA_ENTRIES)
    modifies memory
    ensures memory.entries == Contents(history + [ReadAccess(key, lookupMs)], MAX_METADATA_ENTRIES)
    ensures cached == Lookup(memory.entries, key)
    ensures cached.Some? ==>
              var w := LatestWrite(history, key);
              w.Some? && w.value.value == cached.value && lookupMs < w.value.now + w.value.cacheSeconds * 1000
  {
    cached := memory.Read(key, lookupMs);
    ContentsAfter(history, ReadAccess(key, lookupMs), MAX_METADATA_ENTRIES);
    if cached.Some? {
      HitReturnsLatestUnexpiredValue(history, MAX_METADATA_ENTRIES, key, lookupMs, cached.value);
    }
  }

  /** The second half: the answer is written to memory, on top of whatever other requests did there
      since the lookup. */
  method Remember<T>(memory: Cache<T>, key: string, durable: Option<Durable<T>>, fetched: T, fetchedSeconds: int,
      remainingMs: int, writtenMs: int, ghost history: seq<Access<T>>)
    returns (value: T, ghost answer: Answer<T>)
    requires memory.entries == Contents(history, MAX_METADATA_ENTRIES) && remainingMs <= writtenMs
    modifies memory
    ensures memory.entries == Contents(history + [WriteOf(key, answer, writtenMs)], MAX_METADATA_ENTRIES)
    ensures |memory.entries| <= MAX_METADATA_ENTRIES
    ensures answer == if durable.Some? then FromStore(durable.value, remainingMs)
            else FromNetwork(fetched, fetchedSeconds)
    ensures value == ValueOf(answer)
    ensures durable.Some? ==>
              var i := IndexOf(memory.entries, key);
              && (i < |memory.entries| <==> durable.value.expiresAt > remainingMs / 1000)
              && (i < |memory.entries| ==>
                    && memory.entries[i].value == durable.value.value
                    && var late := memory.entries[i].expiresAt - durable.value.expiresAt * 1000;
                    && 0 <= late - (writtenMs - remainingMs) < 1000)
  {
    RunKeepsTracked(history, MAX_METADATA_ENTRIES);
    var seconds := fetchedSeconds;
    value := fetched;
    answer := FromNetwork(fetched, fetchedSeconds);
    if durable.Some? {
      value := durable.value.value;
      seconds := SecondsRemaining(durable.value.expiresAt, remainingMs);
      answer := FromStore(durable.value, remainingMs);
    }
    WrittenFacts(memory.entries, key, value, seconds, MAX_METADATA_ENTRIES, writtenMs);
    ContentsAfter(history, WriteOf(key, answer, writtenMs), MAX_METADATA_ENTRIES);
    memory.Write(key, value, seconds, MAX_METADATA_ENTRIES, writtenMs);
  }

  lemma ContentsAfter<T>(history: seq<Access<T>>, access: Access<T>, maxEntries: int)
    ensures Contents(history + [access], maxEntries) == After(Contents(history, maxEntries), access, maxEntries)
  {
    assert (history + [access])[..|history|] == history;
  }

  /** The lookups and writes of any number of resolutions, in any order; `answers` says where each
      written value came from. */
  ghost predicate AreResolutions<T>(accesses: seq<Access<T>>, answers: seq<Answer<T>>) {
    && |answers| == |accesses|
    && forall i | 0 <= i < |accesses| && accesses[i].WriteAccess? ::
         accesses[i] == WriteOf(accesses[i].key, answers[i], accesses[i].now)
  }

  /** The answer that access `i` wrote for the key may still be served at this time: what was fetched
      for the seconds it came with, and a durable entry less than a second longer than it lasts, apart
      from the time between computing its remaining seconds and writing it. */
  ghost predicate Serves<T>(accesses: seq<Access<T>>, answers: seq<Answer<T>>, i: nat, key: string, now: int,
      value: T) {
    && i < |accesses| && i < |answers| && IsWrite(accesses[i], key) && ValueOf(answers[i]) == value
    && match answers[i]
       case FromStore(entry, remainingMs) => now < entry.expiresAt * 1000 + 1000 + (accesses[i].now - remainingMs)
       case FromNetwork(_, seconds) => now < accesses[i].now + seconds * 1000
  }

  /** However the resolutions interleave, a hit serves an answer that was written for the key and
      may still be served. */
  lemma HitServesAnAnswer<T>(accesses: seq<Access<T>>, answers: seq<Answer<T>>, maxEntries: int, key: string, now: int,
      value: T)
    requires AreResolutions(accesses, answers)
    requires Lookup(Contents(accesses + [ReadAccess(key, now)], maxEntries), key) == Some(value)
    ensures exists i :: Serves(accesses, answers, i, key, now, value)
  {
    HitReturnsLatestUnexpiredValue(accesses, maxEntries, key, now, value);
    var w := LatestWrite(accesses, key).value;
    var i :| 0 <= i < |accesses| && accesses[i] == w;
    assert w == WriteOf(key, answers[i], w.now);
    assert Serves(accesses, answers, i, key, now, value);
  }

  lemma WrittenFacts<T>(entries: seq<Entry<T>>, key: string, value: T, cacheSeconds: int,
      maxEntries: int, now: int)
    requires DistinctKeys(entries) && |entries| <= maxEntries && maxEntries >= 1
    ensures var after := Written(entries, key, value, cacheSeconds, maxEntries, now);
            && DistinctKeys(after) && |after| <= maxEntries
            && (Has(after, key) <==> cacheSeconds > 0)
            && (cacheSeconds > 0 ==> after[IndexOf(after, key)] == Entry(key, value, now + cacheSeconds * 1000))
  {
    LiveFacts(entries, now);
    var live := Live(entries, now);
    if cacheSeconds <= 0 {
      DropKeepsTracked(live, key);
    } else {
      EvictedFacts(live, key, maxEntries);
      PutFacts(Evicted(live, key, maxEntries), Entry(key, value, now + cacheSeconds * 1000));
    }
  }
}
