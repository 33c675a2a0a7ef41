/** The TTL cache over durable key/value storage: entries under `cache_<key>` with lazy expiry on
    read, and an access side-table under `cache_metadata` for statistics and the age sweep. */
module Cache {
  import opened Wrappers
  import opened Text
  import opened Seqs

  const Prefix := "cache_"
  const MetadataKey := "cache_metadata"
  const MinuteMs: int := 60 * 1000

  /** The default TTL of `setCache` and the default age of `cleanOldCache`, in minutes. */
  const DefaultTtlMinutes: int := 30
  const DefaultMaxAgeMinutes: int := 60

  datatype CacheEntry<T> = CacheEntry(data: T, timestamp: int, expiresAt: int)

  /** One side-table record: when the key was last written or hit, and its serialised size. */
  datatype AccessInfo = AccessInfo(lastAccessed: int, size: nat)
  datatype MetaEntry = MetaEntry(key: string, info: AccessInfo)

  /** What a storage key holds once parsed: a cache entry with the length of its serialised text,
      the side-table (its keys in insertion order, as a JavaScript object keeps them), or text
      belonging to some other part of the application. */
  datatype Stored<T> = EntryText(entry: CacheEntry<T>, length: nat) | MetadataText(meta: seq<MetaEntry>) | OtherText(text: string)

  type Storage<T> = map<string, Stored<T>>

  datatype CacheStats = CacheStats(entries: nat, totalSize: nat, oldestEntry: Option<int>)

  function CacheKey(key: string): string
  {
    Prefix + key
  }

  /** The one user key whose entry would land on the side-table's own storage key. */
  lemma CacheKeyCollision(key: string)
    ensures CacheKey(key) == MetadataKey <==> key == "metadata"
  {
    if CacheKey(key) == MetadataKey {
      assert key == CacheKey(key)[|Prefix|..];
    }
  }

  /** Distinct user keys use distinct storage keys, all inside the cache namespace. */
  lemma CacheKeyInjective(a: string, b: string)
    ensures a != b ==> CacheKey(a) != CacheKey(b)
    ensures StartsWith(CacheKey(a), Prefix)
  {
    if CacheKey(a) == CacheKey(b) {
      assert a == CacheKey(a)[|Prefix|..];
      assert b == CacheKey(b)[|Prefix|..];
    }
  }

  // ---------------------------------------------------------------- the side-table

  predicate DistinctKeys(ms: seq<MetaEntry>)
  {
    forall i, j :: 0 <= i < j < |ms| ==> ms[i].key != ms[j].key
  }

  /** `metadata[key]`. */
  function Lookup(ms: seq<MetaEntry>, key: string): (r: Option<AccessInfo>)
    ensures r.Some? <==> exists i :: 0 <= i < |ms| && ms[i].key == key
  {
    if ms == [] then None else if ms[0].key == key then Some(ms[0].info) else Lookup(ms[1..], key)
  }

  /** `metadata[key] = info`: replace in place, or append a new key. */
  function Upsert(ms: seq<MetaEntry>, key: string, info: AccessInfo): (r: seq<MetaEntry>)
    ensures Lookup(r, key) == Some(info)
    ensures forall k :: k != key ==> Lookup(r, k) == Lookup(ms, k)
    ensures |r| == if Lookup(ms, key).Some? then |ms| else |ms| + 1
    ensures Lookup(ms, key).None? ==> r == ms + [MetaEntry(key, info)]
  {
    if ms == [] then [MetaEntry(key, info)]
    else if ms[0].key == key then
      assert ([MetaEntry(key, info)] + ms[1..])[1..] == ms[1..];
      [MetaEntry(key, info)] + ms[1..]
    else
      var rest := Upsert(ms[1..], key, info);
      assert ([ms[0]] + rest)[1..] == rest;
      assert Lookup(ms, key) == Lookup(ms[1..], key);
      assert forall k :: k != key ==> Lookup([ms[0]] + rest, k) == Lookup(ms, k);
      assert Lookup(ms, key).None? ==> [ms[0]] + rest == ms + [MetaEntry(key, info)] by {
        if Lookup(ms, key).None? {
          AppendAssoc([ms[0]], ms[1..], [MetaEntry(key, info)]);
          assert [ms[0]] + ms[1..] == ms;
        }
      }
      [ms[0]] + rest
  }

  /** An upsert keeps keys distinct and brings in no record but the new one. */
  lemma UpsertKeys(ms: seq<MetaEntry>, key: string, info: AccessInfo)
    ensures forall i :: 0 <= i < |Upsert(ms, key, info)| ==> Upsert(ms, key, info)[i].key == key || Upsert(ms, key, info)[i] in ms
    ensures DistinctKeys(ms) ==> DistinctKeys(Upsert(ms, key, info))
  {
    UpsertFrom(ms, key, info);
    if DistinctKeys(ms) {
      UpsertDistinct(ms, key, info);
    }
  }

  lemma {:induction false} UpsertFrom(ms: seq<MetaEntry>, key: string, info: AccessInfo)
    ensures forall i :: 0 <= i < |Upsert(ms, key, info)| ==> Upsert(ms, key, info)[i].key == key || Upsert(ms, key, info)[i] in ms
  {
    if ms != [] && ms[0].key != key {
      UpsertFrom(ms[1..], key, info);
      var rest := Upsert(ms[1..], key, info);
      var r := Upsert(ms, key, info);
      assert r == [ms[0]] + rest;
      forall i | 0 < i < |r|
        ensures r[i].key == key || r[i] in ms
      {
        assert r[i] == rest[i - 1];
        if rest[i - 1].key != key {
          assert rest[i - 1] in ms[1..];
        }
      }
    }
  }

  lemma {:induction false} UpsertDistinct(ms: seq<MetaEntry>, key: string, info: AccessInfo)
    requires DistinctKeys(ms)
    ensures DistinctKeys(Upsert(ms, key, info))
  {
    if ms != [] && ms[0].key != key {
      var tail := ms[1..];
      assert forall i :: 0 <= i < |tail| ==> tail[i] == ms[i + 1];
      UpsertDistinct(tail, key, info);
      assert Lookup(tail, ms[0].key) == None;
      var rest := Upsert(tail, key, info);
      assert Upsert(ms, key, info) == [ms[0]] + rest;
      ConsDistinct(ms[0], rest);
    }
  }

  /** A record whose key the rest of the table lacks can go in front of it. */
  lemma ConsDistinct(m: MetaEntry, rest: seq<MetaEntry>)
    requires DistinctKeys(rest) && Lookup(rest, m.key) == None
    ensures DistinctKeys([m] + rest)
  {
    var r := [m] + rest;
    forall i, j | 0 <= i < j < |r|
      ensures r[i].key != r[j].key
    {
      assert r[j] == rest[j - 1];
      if i > 0 {
        assert r[i] == rest[i - 1];
      }
    }
  }

  /** The side-table with every key in `gone` deleted. */
  function Without(ms: seq<MetaEntry>, gone: set<string>): (r: seq<MetaEntry>)
    ensures forall k :: Lookup(r, k) == if k in gone then None else Lookup(ms, k)
    ensures DistinctKeys(ms) ==> DistinctKeys(r)
    ensures forall i :: 0 <= i < |r| ==> r[i] in ms && r[i].key !in gone
  {
    if ms == [] then []
    else if ms[0].key in gone then Without(ms[1..], gone)
    else [ms[0]] + Without(ms[1..], gone)
  }

  lemma {:induction false} WithoutNothing(ms: seq<MetaEntry>)
    ensures Without(ms, {}) == ms
  {
    if ms != [] {
      WithoutNothing(ms[1..]);
    }
  }

  /** Deleting keys one batch after another is deleting their union. */
  lemma {:induction false} WithoutWithout(ms: seq<MetaEntry>, a: set<string>, b: set<string>)
    ensures Without(Without(ms, a), b) == Without(ms, a + b)
  {
    if ms != [] {
      WithoutWithout(ms[1..], a, b);
    }
  }

  /** The total of the recorded sizes. */
  function SumSizes(ms: seq<MetaEntry>): nat
  {
    if ms == [] then 0 else ms[0].info.size + SumSizes(ms[1..])
  }

  /** `reduce(Math.min(oldest, lastAccessed), start)`. */
  function Oldest(ms: seq<MetaEntry>, start: int): (m: int)
    ensures m <= start
    ensures forall i :: 0 <= i < |ms| ==> m <= ms[i].info.lastAccessed
    ensures m == start || exists i :: 0 <= i < |ms| && m == ms[i].info.lastAccessed
  {
    if ms == [] then start
    else
      var rest := Oldest(ms[1..], start);
      if ms[0].info.lastAccessed < rest then ms[0].info.lastAccessed else rest
  }

  // ---------------------------------------------------------------- the storage

  /** The storage layout the cache maintains: the side-table key holds the side-table, with distinct
      keys none of which is "metadata"; every other key in the namespace holds an entry. */
  ghost predicate WellFormed<T>(st: Storage<T>)
  {
    && (MetadataKey in st ==> st[MetadataKey].MetadataText? && MetaWellFormed(st[MetadataKey].meta))
    && forall k :: k in st && k != MetadataKey && StartsWith(k, Prefix) ==> st[k].EntryText?
  }

  predicate MetaWellFormed(ms: seq<MetaEntry>)
  {
    DistinctKeys(ms) && forall i :: 0 <= i < |ms| ==> ms[i].key != "metadata"
  }

  /** The side-table as read back: `metadataJson ? JSON.parse(metadataJson) : {}`. */
  function Meta<T>(st: Storage<T>): seq<MetaEntry>
  {
    if MetadataKey in st && st[MetadataKey].MetadataText? then st[MetadataKey].meta else []
  }

  /** `updateCacheMetadata(key, size)` at time `now`. */
  function WithAccess<T>(st: Storage<T>, key: string, size: nat, now: int): Storage<T>
  {
    st[MetadataKey := MetadataText(Upsert(Meta(st), key, AccessInfo(now, size)))]
  }

  /** `removeCacheMetadata(key)`: nothing is written when no side-table is stored. */
  function WithoutMeta<T>(st: Storage<T>, key: string): Storage<T>
  {
    if MetadataKey !in st then st else st[MetadataKey := MetadataText(Without(Meta(st), {key}))]
  }

  /** `setCache(key, data, ttlMinutes)` at time `now`, the entry's text being `length` long. */
  function AfterSet<T>(st: Storage<T>, key: string, data: T, ttlMinutes: int, now: int, length: nat): Storage<T>
  {
    var entry := CacheEntry(data, now, now + ttlMinutes * MinuteMs);
    WithAccess(st[CacheKey(key) := EntryText(entry, length)], key, length, now)
  }

  /** `deleteCache(key)`. */
  function AfterDelete<T>(st: Storage<T>, key: string): Storage<T>
  {
    WithoutMeta(st - {CacheKey(key)}, key)
  }

  /** The value `getCache(key)` returns at time `now`: a miss when absent, null once `now > expiresAt`. */
  function Read<T>(st: Storage<T>, key: string, now: int): Option<T>
  {
    if CacheKey(key) in st && st[CacheKey(key)].EntryText? && now <= st[CacheKey(key)].entry.expiresAt
    then Some(st[CacheKey(key)].entry.data)
    else None
  }

  /** The storage after `getCache(key)` at time `now`: an expired entry is deleted with its metadata,
      a hit refreshes the access record with the stored text's length. */
  function AfterGet<T>(st: Storage<T>, key: string, now: int): Storage<T>
  {
    if CacheKey(key) !in st || !st[CacheKey(key)].EntryText? then st
    else if now > st[CacheKey(key)].entry.expiresAt then AfterDelete(st, key)
    else WithAccess(st, key, st[CacheKey(key)].length, now)
  }

  /** `clearAllCache`: every key with the prefix goes, then the side-table key. */
  function AfterClearAll<T>(st: Storage<T>): Storage<T>
  {
    (map k | k in st && !StartsWith(k, Prefix) :: st[k]) - {MetadataKey}
  }

  /** `getCacheStats` at time `now`. */
  function StatsOf<T>(st: Storage<T>, now: int): (s: CacheStats)
    ensures s.oldestEntry.None? <==> MetadataKey !in st
    ensures s.oldestEntry.None? ==> s.entries == 0 && s.totalSize == 0
    ensures MetadataKey in st ==> s.entries == |Meta(st)| && s.totalSize == SumSizes(Meta(st))
    ensures s.oldestEntry.Some? ==>
      && s.oldestEntry.value <= now
      && (Meta(st) == [] ==> s.oldestEntry.value == now)
      && (forall i :: 0 <= i < |Meta(st)| ==> s.oldestEntry.value <= Meta(st)[i].info.lastAccessed)
      && (s.oldestEntry.value == now || exists i :: 0 <= i < |Meta(st)| && s.oldestEntry.value == Meta(st)[i].info.lastAccessed)
  {
    if MetadataKey !in st then CacheStats(0, 0, None)
    else CacheStats(|Meta(st)|, SumSizes(Meta(st)), Some(Oldest(Meta(st), now)))
  }

  /** Whether an access record is older than `maxAge` milliseconds at time `now`. */
  predicate Stale(e: MetaEntry, now: int, maxAge: int)
  {
    now - e.info.lastAccessed > maxAge
  }

  /** The sweep over the side-table snapshot `es`, deleting each stale key in turn. */
  function Sweep<T>(st: Storage<T>, es: seq<MetaEntry>, now: int, maxAge: int): Storage<T>
    decreases |es|
  {
    if es == [] then st
    else
      var before := Sweep(st, es[..|es| - 1], now, maxAge);
      var e := es[|es| - 1];
      if Stale(e, now, maxAge) then AfterDelete(before, e.key) else before
  }

  /** `cleanOldCache(maxAgeMinutes)` at time `now`. */
  function AfterClean<T>(st: Storage<T>, maxAgeMinutes: int, now: int): Storage<T>
  {
    if MetadataKey !in st then st else Sweep(st, Meta(st), now, maxAgeMinutes * MinuteMs)
  }

  /** How many records of `es` are stale: the number the sweep logs. */
  function StaleCount(es: seq<MetaEntry>, now: int, maxAge: int): (n: nat)
    ensures n <= |es|
    decreases |es|
  {
    if es == [] then 0
    else StaleCount(es[..|es| - 1], now, maxAge) + if Stale(es[|es| - 1], now, maxAge) then 1 else 0
  }

  /** With distinct keys, the stale count is the number of stale keys, so the sweep's count is the
      number of entries it deletes. */
  lemma {:induction false} StaleCountKeys(es: seq<MetaEntry>, now: int, maxAge: int)
    requires DistinctKeys(es)
    ensures StaleCount(es, now, maxAge) == |StaleKeys(es, now, maxAge)|
    decreases |es|
  {
    if es != [] {
      var init := es[..|es| - 1];
      var e := es[|es| - 1];
      assert forall i :: 0 <= i < |init| ==> init[i] == es[i];
      StaleCountKeys(init, now, maxAge);
      if Stale(e, now, maxAge) {
        assert e.key !in StaleKeys(init, now, maxAge);
      }
    }
  }

  /** The keys of the stale records in `es`. */
  function StaleKeys(es: seq<MetaEntry>, now: int, maxAge: int): (r: set<string>)
    ensures forall k :: k in r <==> exists i :: 0 <= i < |es| && es[i].key == k && Stale(es[i], now, maxAge)
    decreases |es|
  {
    if es == [] then {}
    else
      var before := StaleKeys(es[..|es| - 1], now, maxAge);
      var e := es[|es| - 1];
      assert forall i :: 0 <= i < |es| - 1 ==> es[..|es| - 1][i] == es[i];
      if Stale(e, now, maxAge) then before + {e.key} else before
  }

  /** The storage keys of a set of user keys. */
  function CacheKeys(keys: set<string>): set<string>
  {
    set k | k in keys :: CacheKey(k)
  }

  // ---------------------------------------------------------------- properties

  /** Writing an entry then reading it: the value comes back at every time up to `expiresAt` and not
      after, and the key's access record is (now, length). */
  lemma SetThenRead<T>(st: Storage<T>, key: string, data: T, ttlMinutes: int, now: int, length: nat, later: int)
    requires key != "metadata"
    ensures var st' := AfterSet(st, key, data, ttlMinutes, now, length);
      && Read(st', key, later) == (if later <= now + ttlMinutes * MinuteMs then Some(data) else None)
      && Lookup(Meta(st'), key) == Some(AccessInfo(now, length))
  {
    CacheKeyCollision(key);
  }

  /** A read after `expiresAt` returns null and deletes both the entry and its access record, so no
      later read, at any time, brings the value back. */
  lemma ExpiredReadDeletes<T>(st: Storage<T>, key: string, now: int, later: int)
    requires key != "metadata"
    requires CacheKey(key) in st && st[CacheKey(key)].EntryText? && now > st[CacheKey(key)].entry.expiresAt
    ensures Read(st, key, now) == None
    ensures CacheKey(key) !in AfterGet(st, key, now)
    ensures Lookup(Meta(AfterGet(st, key, now)), key) == None
    ensures Read(AfterGet(st, key, now), key, later) == None
    ensures Read(AfterGet(AfterGet(st, key, now), key, later), key, later) == None
  {
    CacheKeyCollision(key);
  }

  /** A hit returns the stored value, keeps the entry, and refreshes its access record with the
      entry's serialised length. */
  lemma HitRefreshesAccess<T>(st: Storage<T>, key: string, now: int)
    requires key != "metadata"
    requires Read(st, key, now).Some?
    ensures Read(st, key, now) == Some(st[CacheKey(key)].entry.data)
    ensures CacheKey(key) in AfterGet(st, key, now) && AfterGet(st, key, now)[CacheKey(key)] == st[CacheKey(key)]
    ensures Lookup(Meta(AfterGet(st, key, now)), key) == Some(AccessInfo(now, st[CacheKey(key)].length))
  {
    CacheKeyCollision(key);
  }

  /** Deleting one key removes its entry and its access record and touches no other key's. */
  lemma DeleteIsolated<T>(st: Storage<T>, key: string, other: string, now: int)
    requires key != "metadata" && other != "metadata" && other != key
    ensures CacheKey(key) !in AfterDelete(st, key)
    ensures Lookup(Meta(AfterDelete(st, key)), key) == None
    ensures (CacheKey(other) in AfterDelete(st, key)) == (CacheKey(other) in st)
    ensures CacheKey(other) in st ==> AfterDelete(st, key)[CacheKey(other)] == st[CacheKey(other)]
    ensures Lookup(Meta(AfterDelete(st, key)), other) == Lookup(Meta(st), other)
    ensures Read(AfterDelete(st, key), other, now) == Read(st, other, now)
  {
    CacheKeyCollision(key);
    CacheKeyCollision(other);
    CacheKeyInjective(key, other);
  }

  /** Clearing removes every key of the namespace, keeps every other key as it was, and leaves
      all-zero statistics with no oldest entry. */
  lemma ClearAllEffect<T>(st: Storage<T>, now: int)
    ensures forall k :: k in AfterClearAll(st) ==> !StartsWith(k, Prefix) && AfterClearAll(st)[k] == st[k]
    ensures forall k :: k in st && !StartsWith(k, Prefix) ==> k in AfterClearAll(st)
    ensures forall key :: Read(AfterClearAll(st), key, now) == None
    ensures StatsOf(AfterClearAll(st), now) == CacheStats(0, 0, None)
  {
    forall key ensures Read(AfterClearAll(st), key, now) == None {
      CacheKeyInjective(key, key);
    }
  }

  /** Storage from which the keys `gone` have been swept. */
  function Swept<T>(st: Storage<T>, meta: seq<MetaEntry>, gone: set<string>): Storage<T>
  {
    (st - CacheKeys(gone))[MetadataKey := MetadataText(Without(meta, gone))]
  }

  /** Deleting one more key from swept storage sweeps one more key. */
  lemma SweptDelete<T>(st: Storage<T>, meta: seq<MetaEntry>, gone: set<string>, key: string)
    requires key != "metadata"
    ensures AfterDelete(Swept(st, meta, gone), key) == Swept(st, meta, gone + {key})
  {
    CacheKeyCollision(key);
    var a := Swept(st, meta, gone);
    var b := a - {CacheKey(key)};
    assert MetadataKey in b && Meta(b) == Without(meta, gone);
    WithoutWithout(meta, gone, {key});
    CacheKeysAdd(gone, key);
    RemoveUnderKey(st, CacheKeys(gone), CacheKey(key), MetadataKey,
      MetadataText(Without(meta, gone)), MetadataText(Without(meta, gone + {key})));
  }

  lemma CacheKeysAdd(gone: set<string>, key: string)
    ensures CacheKeys(gone + {key}) == CacheKeys(gone) + {CacheKey(key)}
  {
    forall x | x in CacheKeys(gone + {key})
      ensures x in CacheKeys(gone) + {CacheKey(key)}
    {
      var u :| u in gone + {key} && x == CacheKey(u);
      if u != key {
        assert u in gone;
      }
    }
    forall x | x in CacheKeys(gone) + {CacheKey(key)}
      ensures x in CacheKeys(gone + {key})
    {
      if x != CacheKey(key) {
        var u :| u in gone && x == CacheKey(u);
        assert u in gone + {key};
      }
    }
  }

  /** Removing `x` from a map whose key `mk` was just overwritten, then overwriting `mk` again. */
  lemma RemoveUnderKey<K, V>(m: map<K, V>, c: set<K>, x: K, mk: K, v1: V, v2: V)
    requires x != mk
    ensures ((m - c)[mk := v1] - {x})[mk := v2] == (m - (c + {x}))[mk := v2]
  {
  }

  /** Sweeping no key leaves the storage as it was. */
  lemma SweptNothing<T>(st: Storage<T>, meta: seq<MetaEntry>)
    requires MetadataKey in st && st[MetadataKey] == MetadataText(meta)
    ensures Swept(st, meta, {}) == st
  {
    WithoutNothing(meta);
    assert CacheKeys({}) == {};
    OverwriteSame(st, MetadataKey, MetadataText(meta));
  }

  lemma OverwriteSame<K, V>(m: map<K, V>, mk: K, v: V)
    requires mk in m && m[mk] == v
    ensures (m - {})[mk := v] == m
  {
  }

  /** The sweep over a prefix of the snapshot has deleted exactly the stale keys of that prefix. */
  lemma {:induction false} SweepPrefix<T>(st: Storage<T>, meta: seq<MetaEntry>, es: seq<MetaEntry>, now: int, maxAge: int)
    requires MetadataKey in st && st[MetadataKey] == MetadataText(meta)
    requires forall i :: 0 <= i < |es| ==> es[i].key != "metadata"
    ensures Sweep(st, es, now, maxAge) == Swept(st, meta, StaleKeys(es, now, maxAge))
    decreases |es|
  {
    if es == [] {
      SweptNothing(st, meta);
    } else {
      var init := es[..|es| - 1];
      var e := es[|es| - 1];
      assert forall i :: 0 <= i < |init| ==> init[i].key != "metadata" by {
        assert forall i :: 0 <= i < |init| ==> init[i] == es[i];
      }
      SweepPrefix(st, meta, init, now, maxAge);
      var gone := StaleKeys(init, now, maxAge);
      if Stale(e, now, maxAge) {
        calc {
          Sweep(st, es, now, maxAge);
          AfterDelete(Sweep(st, init, now, maxAge), e.key);
          AfterDelete(Swept(st, meta, gone), e.key);
          { SweptDelete(st, meta, gone, e.key); }
          Swept(st, meta, gone + {e.key});
          Swept(st, meta, StaleKeys(es, now, maxAge));
        }
      } else {
        assert Sweep(st, es, now, maxAge) == Sweep(st, init, now, maxAge);
        assert StaleKeys(es, now, maxAge) == gone;
      }
    }
  }

  /** The age sweep deletes exactly the entries whose access record is older than the limit, together
      with those records; every other key keeps its entry, and the side-table keeps its other records
      in their order. */
  lemma CleanEffect<T>(st: Storage<T>, maxAgeMinutes: int, now: int)
    requires WellFormed(st) && MetadataKey in st
    ensures var gone := StaleKeys(Meta(st), now, maxAgeMinutes * MinuteMs);
      AfterClean(st, maxAgeMinutes, now) == (st - CacheKeys(gone))[MetadataKey := MetadataText(Without(Meta(st), gone))]
    ensures forall key :: key in StaleKeys(Meta(st), now, maxAgeMinutes * MinuteMs) ==>
      CacheKey(key) !in AfterClean(st, maxAgeMinutes, now) && Lookup(Meta(AfterClean(st, maxAgeMinutes, now)), key).None?
    ensures forall key :: key != "metadata" && Lookup(Meta(st), key).None? ==>
      Read(AfterClean(st, maxAgeMinutes, now), key, now) == Read(st, key, now)
  {
    var meta := Meta(st);
    var maxAge := maxAgeMinutes * MinuteMs;
    SweepPrefix(st, meta, meta, now, maxAge);
    var gone := StaleKeys(meta, now, maxAge);
    assert AfterClean(st, maxAgeMinutes, now) == Swept(st, meta, gone);
    forall key | key in gone
      ensures CacheKey(key) !in AfterClean(st, maxAgeMinutes, now) && Lookup(Meta(AfterClean(st, maxAgeMinutes, now)), key).None?
    {
      var i :| 0 <= i < |meta| && meta[i].key == key && Stale(meta[i], now, maxAge);
      SweptGone(st, meta, gone, key);
    }
    forall key | key != "metadata" && Lookup(meta, key).None?
      ensures Read(AfterClean(st, maxAgeMinutes, now), key, now) == Read(st, key, now)
    {
      assert key !in gone;
      SweptKeeps(st, meta, gone, key, now);
    }
  }

  /** A swept key has neither entry nor record. */
  lemma SweptGone<T>(st: Storage<T>, meta: seq<MetaEntry>, gone: set<string>, key: string)
    requires key in gone && key != "metadata"
    ensures CacheKey(key) !in Swept(st, meta, gone) && Lookup(Meta(Swept(st, meta, gone)), key).None?
  {
    CacheKeyCollision(key);
    assert CacheKey(key) in CacheKeys(gone);
  }

  /** A key that was not swept reads as before. */
  lemma SweptKeeps<T>(st: Storage<T>, meta: seq<MetaEntry>, gone: set<string>, key: string, now: int)
    requires key !in gone && key != "metadata"
    ensures Read(Swept(st, meta, gone), key, now) == Read(st, key, now)
  {
    CacheKeyCollision(key);
    assert CacheKey(key) !in CacheKeys(gone) by {
      forall k | k in gone ensures CacheKey(k) != CacheKey(key) {
        CacheKeyInjective(k, key);
      }
    }
  }

  /** Writing keeps the storage layout. */
  lemma SetWellFormed<T>(st: Storage<T>, key: string, data: T, ttlMinutes: int, now: int, length: nat)
    requires WellFormed(st) && key != "metadata"
    ensures WellFormed(AfterSet(st, key, data, ttlMinutes, now, length))
  {
    var entry := EntryText(CacheEntry(data, now, now + ttlMinutes * MinuteMs), length);
    EntryWellFormed(st, key, entry);
    WithAccessWellFormed(st[CacheKey(key) := entry], key, length, now);
  }

  /** Reading and deleting keep the storage layout. */
  lemma GetWellFormed<T>(st: Storage<T>, key: string, now: int)
    requires WellFormed(st) && key != "metadata"
    ensures WellFormed(AfterGet(st, key, now))
    ensures WellFormed(AfterDelete(st, key))
  {
    CacheKeyCollision(key);
    var rest := st - {CacheKey(key)};
    assert WellFormed(rest);
    WithoutMetaWellFormed(rest, key);
    if CacheKey(key) in st && st[CacheKey(key)].EntryText? {
      WithAccessWellFormed(st, key, st[CacheKey(key)].length, now);
    }
  }

  /** A delete keeps the layout for every key, "metadata" included. */
  lemma DeleteWellFormed<T>(st: Storage<T>, key: string)
    requires WellFormed(st)
    ensures WellFormed(AfterDelete(st, key))
  {
    var rest := st - {CacheKey(key)};
    assert WellFormed(rest);
    WithoutMetaWellFormed(rest, key);
  }

  lemma EntryWellFormed<T>(st: Storage<T>, key: string, entry: Stored<T>)
    requires WellFormed(st) && key != "metadata" && entry.EntryText?
    ensures WellFormed(st[CacheKey(key) := entry])
  {
    CacheKeyCollision(key);
  }

  lemma WithAccessWellFormed<T>(st: Storage<T>, key: string, size: nat, now: int)
    requires WellFormed(st) && key != "metadata"
    ensures WellFormed(WithAccess(st, key, size, now))
  {
    var ms := Meta(st);
    assert MetaWellFormed(ms);
    UpsertKeys(ms, key, AccessInfo(now, size));
    var r := Upsert(ms, key, AccessInfo(now, size));
    forall i | 0 <= i < |r|
      ensures r[i].key != "metadata"
    {
      if r[i].key != key {
        assert r[i] in ms;
      }
    }
    assert MetaWellFormed(r);
  }

  lemma WithoutMetaWellFormed<T>(st: Storage<T>, key: string)
    requires WellFormed(st)
    ensures WellFormed(WithoutMeta(st, key))
  {
    if MetadataKey in st {
      var ms := Meta(st);
      var r := Without(ms, {key});
      forall i | 0 <= i < |r|
        ensures r[i].key != "metadata"
      {
        assert r[i] in ms;
      }
      assert MetaWellFormed(r);
    }
  }

  /** Two writes then the lazy expiry of one: the side-table counts two entries, then one. */
  lemma StatsAfterExpiry<T>(a: string, b: string, x: T, y: T, ta: int, tb: int, later: int, la: nat, lb: nat)
    requires a != b && a != "metadata" && b != "metadata"
    requires ta < tb && ta + 10 * MinuteMs < later <= tb + 10 * MinuteMs
    ensures var st2 := AfterSet(AfterSet(map[], a, x, 10, ta, la), b, y, 10, tb, lb);
      && StatsOf(st2, later).entries == 2
      && Read(st2, a, later) == None
      && Read(st2, b, later) == Some(y)
      && StatsOf(AfterGet(st2, a, later), later).entries == 1
  {
    var ea, eb := MetaEntry(a, AccessInfo(ta, la)), MetaEntry(b, AccessInfo(tb, lb));
    var st2 := AfterSet(AfterSet(map[], a, x, 10, ta, la), b, y, 10, tb, lb);
    TwoWritesLayout(a, b, x, y, ta, tb, la, lb);
    ExpiredOneOfTwo(st2, a, later, ea, eb);
  }

  /** With two records, an expired read of the first leaves one. */
  lemma ExpiredOneOfTwo<T>(st: Storage<T>, a: string, later: int, ea: MetaEntry, eb: MetaEntry)
    requires a != "metadata" && ea.key == a && eb.key != a
    requires MetadataKey in st && st[MetadataKey].MetadataText? && Meta(st) == [ea, eb]
    requires CacheKey(a) in st && st[CacheKey(a)].EntryText? && later > st[CacheKey(a)].entry.expiresAt
    ensures StatsOf(AfterGet(st, a, later), later).entries == 1
  {
    assert AfterGet(st, a, later) == AfterDelete(st, a);
    DeleteLayout(st, a);
    assert Without([ea, eb], {a}) == [eb];
  }

  /** Two writes to distinct keys of an empty store: both entries, and both records in write order. */
  lemma TwoWritesLayout<T>(a: string, b: string, x: T, y: T, ta: int, tb: int, la: nat, lb: nat)
    requires a != b && a != "metadata" && b != "metadata"
    ensures var st2 := AfterSet(AfterSet(map[], a, x, 10, ta, la), b, y, 10, tb, lb);
      && MetadataKey in st2 && st2[MetadataKey].MetadataText?
      && Meta(st2) == [MetaEntry(a, AccessInfo(ta, la)), MetaEntry(b, AccessInfo(tb, lb))]
      && CacheKey(a) in st2 && st2[CacheKey(a)] == EntryText(CacheEntry(x, ta, ta + 10 * MinuteMs), la)
      && CacheKey(b) in st2 && st2[CacheKey(b)] == EntryText(CacheEntry(y, tb, tb + 10 * MinuteMs), lb)
  {
    var ea, eb := MetaEntry(a, AccessInfo(ta, la)), MetaEntry(b, AccessInfo(tb, lb));
    var st1 := AfterSet(map[], a, x, 10, ta, la);
    SetLayout(map[], a, x, 10, ta, la);
    assert Meta(st1) == [ea];
    SetLayout(st1, b, y, 10, tb, lb);
    assert Lookup([ea], b) == None;
    assert [ea] + [eb] == [ea, eb];
    CacheKeyInjective(a, b);
  }

  /** Where a write puts things: the entry under its storage key, the side-table updated. */
  lemma SetLayout<T>(st: Storage<T>, key: string, data: T, ttlMinutes: int, now: int, length: nat)
    requires key != "metadata"
    ensures var st' := AfterSet(st, key, data, ttlMinutes, now, length);
      && MetadataKey in st' && Meta(st') == Upsert(Meta(st), key, AccessInfo(now, length))
      && CacheKey(key) in st' && st'[CacheKey(key)] == EntryText(CacheEntry(data, now, now + ttlMinutes * MinuteMs), length)
      && forall k :: k != CacheKey(key) && k != MetadataKey ==> (k in st' <==> k in st) && (k in st ==> st'[k] == st[k])
  {
    CacheKeyCollision(key);
  }

  /** Where a delete leaves things, when a side-table is stored. */
  lemma DeleteLayout<T>(st: Storage<T>, key: string)
    requires key != "metadata" && MetadataKey in st && st[MetadataKey].MetadataText?
    ensures MetadataKey in AfterDelete(st, key) && Meta(AfterDelete(st, key)) == Without(Meta(st), {key})
  {
    CacheKeyCollision(key);
  }

  // ---------------------------------------------------------------- the service

  /** The cache's view of the durable storage. */
  class CacheService<T> {
    var storage: Storage<T>

    ghost predicate Valid()
      reads this
    {
      WellFormed(storage)
    }

    constructor (initial: Storage<T>)
      requires WellFormed(initial)
      ensures Valid() && storage == initial
    {
      storage := initial;
    }

    /** `setCache`: write the entry, then its access record. */
    method SetCache(key: string, data: T, now: int, length: nat, ttlMinutes: int := DefaultTtlMinutes)
      requires Valid() && key != "metadata"
      modifies this
      ensures Valid()
      ensures storage == AfterSet(old(storage), key, data, ttlMinutes, now, length)
    {
      SetWellFormed(storage, key, data, ttlMinutes, now, length);
      var entry := CacheEntry(data, now, now + ttlMinutes * MinuteMs);
      storage := storage[CacheKey(key) := EntryText(entry, length)];
      UpdateCacheMetadata(key, length, now);
    }

    /** `getCache`: a miss, a lazy expiry (deleting entry and record), or a hit that refreshes the record. */
    method GetCache(key: string, now: int) returns (r: Option<T>)
      requires Valid() && key != "metadata"
      modifies this
      ensures Valid()
      ensures r == Read(old(storage), key, now)
      ensures storage == AfterGet(old(storage), key, now)
    {
      var cacheKey := CacheKey(key);
      GetWellFormed(storage, key, now);
      if cacheKey !in storage || !storage[cacheKey].EntryText? {
        return None;
      }
      var cached := storage[cacheKey];
      if now > cached.entry.expiresAt {
        DeleteCache(key);
        return None;
      }
      UpdateCacheMetadata(key, cached.length, now);
      r := Some(cached.entry.data);
    }

    /** `deleteCache`: remove the entry, then its access record. */
    method DeleteCache(key: string)
      modifies this
      ensures storage == AfterDelete(old(storage), key)
      ensures old(Valid()) ==> Valid()
    {
      ghost var before := storage;
      storage := storage - {CacheKey(key)};
      RemoveCacheMetadata(key);
      if WellFormed(before) {
        DeleteWellFormed(before, key);
      }
    }

    /** `clearAllCache`: remove every key with the prefix, then the side-table key. */
    method ClearAllCache()
      modifies this
      ensures storage == AfterClearAll(old(storage))
      ensures Valid()
    {
      storage := map k | k in storage && !StartsWith(k, Prefix) :: storage[k];
      storage := storage - {MetadataKey};
    }

    /** `isCacheValid`: changes nothing; true exactly when `getCache` at the same time would hit. */
    predicate IsCacheValid(key: string, now: int)
      reads this
      ensures IsCacheValid(key, now) <==> Read(storage, key, now).Some?
    {
      CacheKey(key) in storage && storage[CacheKey(key)].EntryText? && now <= storage[CacheKey(key)].entry.expiresAt
    }

    /** `updateCacheMetadata`. */
    method UpdateCacheMetadata(key: string, size: nat, now: int)
      modifies this
      ensures storage == WithAccess(old(storage), key, size, now)
    {
      var metadata := Meta(storage);
      storage := storage[MetadataKey := MetadataText(Upsert(metadata, key, AccessInfo(now, size)))];
    }

    /** `removeCacheMetadata`. */
    method RemoveCacheMetadata(key: string)
      modifies this
      ensures storage == WithoutMeta(old(storage), key)
    {
      if MetadataKey !in storage {
        return;
      }
      storage := storage[MetadataKey := MetadataText(Without(Meta(storage), {key}))];
    }

    /** `getCacheStats`. */
    function GetCacheStats(now: int): CacheStats
      reads this
    {
      StatsOf(storage, now)
    }

    /** `cleanOldCache`: walk the side-table snapshot, deleting each key older than the limit. */
    method CleanOldCache(now: int, maxAgeMinutes: int := DefaultMaxAgeMinutes) returns (deletedCount: nat)
      requires Valid()
      modifies this
      ensures Valid()
      ensures storage == AfterClean(old(storage), maxAgeMinutes, now)
      ensures deletedCount == if MetadataKey in old(storage) then StaleCount(Meta(old(storage)), now, maxAgeMinutes * MinuteMs) else 0
      ensures MetadataKey in old(storage) ==> deletedCount == |StaleKeys(Meta(old(storage)), now, maxAgeMinutes * MinuteMs)|
    {
      deletedCount := 0;
      if MetadataKey !in storage {
        return;
      }
      var metadata := Meta(storage);
      var maxAge := maxAgeMinutes * MinuteMs;
      StaleCountKeys(metadata, now, maxAge);
      for i := 0 to |metadata|
        invariant storage == Sweep(old(storage), metadata[..i], now, maxAge)
        invariant deletedCount == StaleCount(metadata[..i], now, maxAge)
      {
        assert metadata[..i + 1][..i] == metadata[..i];
        if now - metadata[i].info.lastAccessed > maxAge {
          DeleteCache(metadata[i].key);
          deletedCount := deletedCount + 1;
        }
      }
      assert metadata[..|metadata|] == metadata;
      CleanEffect(old(storage), maxAgeMinutes, now);
    }
  }
}
