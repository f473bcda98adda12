/** The bounded in-memory cache with a lifetime per entry, against the unbounded map it stands for. */
module Cache {
  import opened Wrappers

  datatype Entry<V> = Entry(expiresAt: real, value: V)

  datatype Error = ValueError

  /** What an entry is worth at a given time. */
  predicate Live<V>(e: Entry<V>, now: real) {
    now < e.expiresAt
  }

  /** Why an entry was taken out while it was still live: the store was full, nothing in it had
      expired, and nothing in it expired sooner. */
  ghost predicate RightlyEvicted<V>(key: string, residents: Store<V>, now: real, maxEntries: nat) {
    && key in residents && |residents| >= maxEntries
    && forall k :: k in residents ==> Live(residents[k], now) && residents[key].expiresAt <= residents[k].expiresAt
  }

  /** An eviction: the key, the store it was taken from, and when. */
  datatype Eviction<V> = Eviction(key: string, residents: Store<V>, at: real)

  type Store<V> = map<string, Entry<V>>

  /** The store holds part of the ideal map; what is missing has expired or was rightly evicted. */
  ghost predicate Agree<V>(entries: Store<V>, ideal: Store<V>, evictions: map<string, Eviction<V>>, clock: real,
                           maxEntries: nat) {
    && (forall k :: k in entries ==> k in ideal && ideal[k] == entries[k])
    && (forall k :: k in ideal && k !in entries && Live(ideal[k], clock) ==> k in evictions)
    && (forall k :: k in evictions ==> Sound(k, evictions[k], entries, ideal, clock, maxEntries))
  }

  ghost predicate Sound<V>(k: string, e: Eviction<V>, entries: Store<V>, ideal: Store<V>, clock: real,
                           maxEntries: nat) {
    && e.key == k && k in ideal && k !in entries && e.at <= clock
    && RightlyEvicted(k, e.residents, e.at, maxEntries) && e.residents[k] == ideal[k]
  }

  /** Time passes, and some entries that have expired by then are dropped. */
  lemma DropExpired<V>(entries: Store<V>, gone: set<string>, ideal: Store<V>, evictions: map<string, Eviction<V>>,
                       clock: real, now: real, maxEntries: nat)
    requires Agree(entries, ideal, evictions, clock, maxEntries) && clock <= now
    requires forall k :: k in gone && k in entries ==> !Live(entries[k], now)
    ensures Agree(entries - gone, ideal, evictions, now, maxEntries)
  {}

  lemma HitsAndMisses<V>(key: string, entries: Store<V>, ideal: Store<V>, evictions: map<string, Eviction<V>>,
                         clock: real, maxEntries: nat)
    requires Agree(entries, ideal, evictions, clock, maxEntries)
    ensures key in entries ==> key in ideal && ideal[key] == entries[key]
    ensures key !in entries && key in ideal && clock < ideal[key].expiresAt ==> key in evictions
  {}

  /** A look at a key: what the store says of it, and the store without it when it has expired. */
  lemma Looked<V>(key: string, entries: Store<V>, ideal: Store<V>, evictions: map<string, Eviction<V>>,
                  clock: real, now: real, maxEntries: nat)
    requires Agree(entries, ideal, evictions, clock, maxEntries) && clock <= now && |entries| <= maxEntries
    ensures Agree(entries, ideal, evictions, now, maxEntries)
    ensures key in entries ==> key in ideal && ideal[key] == entries[key]
    ensures key !in entries && key in ideal && now < ideal[key].expiresAt ==> key in evictions
    ensures key !in entries ==> entries - {key} == entries
    ensures key in entries && now >= entries[key].expiresAt ==>
              Agree(entries - {key}, ideal, evictions, now, maxEntries) && |entries - {key}| <= maxEntries
  {
    hide Agree;
    DropExpired(entries, {}, ideal, evictions, clock, now, maxEntries);
    assert entries - {} == entries;
    HitsAndMisses(key, entries, ideal, evictions, now, maxEntries);
    if key in entries && now >= entries[key].expiresAt {
      DropExpired(entries, {key}, ideal, evictions, clock, now, maxEntries);
      SizeWithout(entries, {key});
    }
  }

  lemma PutEntry<V>(entries: Store<V>, ideal: Store<V>, evictions: map<string, Eviction<V>>, clock: real, later: real,
                    maxEntries: nat, key: string, e: Entry<V>)
    requires Agree(entries, ideal, evictions, clock, maxEntries) && clock <= later
    ensures Agree(entries[key := e], ideal[key := e], evictions - {key}, later, maxEntries)
  {}

  lemma EvictEntry<V>(entries: Store<V>, ideal: Store<V>, evictions: map<string, Eviction<V>>, clock: real,
                      maxEntries: nat, key: string)
    requires Agree(entries, ideal, evictions, clock, maxEntries) && RightlyEvicted(key, entries, clock, maxEntries)
    ensures Agree(entries - {key}, ideal, evictions[key := Eviction(key, entries, clock)], clock, maxEntries)
  {}

  lemma SizeWithout<V>(m: Store<V>, gone: set<string>)
    ensures (m - gone).Keys == m.Keys - gone && |m - gone| == |m| - |m.Keys * gone|
    ensures |m.Keys * gone| == 0 ==> m - gone == m
  {
    assert (m - gone).Keys == m.Keys - gone;
    assert |m.Keys| == |m.Keys - gone| + |m.Keys * gone|;
    if |m.Keys * gone| == 0 {
      forall k | k in m
        ensures k in m - gone
      {
        assert k !in m.Keys * gone;
      }
    }
  }

  lemma SizeWith<V>(m: Store<V>, key: string, e: Entry<V>)
    ensures |m[key := e]| == |m| + if key in m then 0 else 1
  {
    assert m[key := e].Keys == m.Keys + {key};
    assert key in m ==> m.Keys + {key} == m.Keys;
  }

  class InMemoryTtlCache<V> {
    const maxEntries: nat
    var entries: Store<V>
    ghost var ideal: Store<V>                   // every set so far, the latest for each key
    ghost var evictions: map<string, Eviction<V>> // the keys lost to a full store since their latest set
    ghost var clock: real                        // the latest reading

    ghost predicate Valid()
      reads this
    {
      0 < maxEntries && |entries| <= maxEntries && Agree(entries, ideal, evictions, clock, maxEntries)
    }

    constructor (maxEntries: nat)
      requires maxEntries > 0
      ensures Valid() && entries == map[] && ideal == map[] && evictions == map[] && this.maxEntries == maxEntries
    {
      this.maxEntries := maxEntries;
      entries, ideal, evictions, clock := map[], map[], map[], 0.0;
    }

    /** A hit is the latest value set for the key, and it is unexpired; a live entry is missed only
        after a right eviction. */
    method Get(key: string, now: real) returns (r: Option<V>)
      requires Valid() && clock <= now
      modifies this
      ensures Valid() && clock == now && ideal == old(ideal) && evictions == old(evictions)
      ensures r.Some? ==> key in ideal && r.value == ideal[key].value && now < ideal[key].expiresAt
      ensures r.None? && key in ideal && now < ideal[key].expiresAt ==> key in evictions
      ensures r.None? ==> entries == old(entries) - {key}
      ensures r.Some? ==> entries == old(entries)
      ensures forall k ::
                k in old(entries) && Live(old(entries)[k], now) ==> k in entries && entries[k] == old(entries)[k]
    {
      hide Agree;
      Looked(key, entries, ideal, evictions, clock, now, maxEntries);
      clock := now;
      if key !in entries {
        return None;
      }
      var e := entries[key];
      if now >= e.expiresAt {
        entries := entries - {key};
        return None;
      }
      r := Some(e.value);
    }

    /** The entry with the soonest expiry. */
    method Soonest() returns (key: string)
      requires |entries| > 0
      ensures key in entries && forall k :: k in entries ==> entries[key].expiresAt <= entries[k].expiresAt
    {
      assert entries.Keys != {};
      key :| key in entries;
      var left := entries.Keys - {key};
      while left != {}
        invariant key in entries && left <= entries.Keys
        invariant forall k :: k in entries && k !in left ==> entries[key].expiresAt <= entries[k].expiresAt
        decreases |left|
      {
        var k :| k in left;
        if entries[k].expiresAt < entries[key].expiresAt {
          key := k;
        }
        left := left - {k};
      }
    }

    /** Drop what has expired, and only if that freed nothing evict the entry with the soonest expiry. */
    method MakeRoom(now: real)
      requires Valid() && clock <= now && |entries| >= maxEntries
      modifies this
      ensures Valid() && clock == now && ideal == old(ideal) && |entries| < maxEntries
              && entries.Keys <= old(entries).Keys
      ensures forall k :: k in old(entries) && k !in entries && Live(old(entries)[k], now) ==> k in evictions
      ensures forall k :: k in evictions ==>
                (k in old(evictions) && evictions[k] == old(evictions)[k])
                  || evictions[k] == Eviction(k, old(entries), now)
    {
      ghost var before := entries;
      Purge(now);
      if |entries| >= maxEntries {
        EvictSoonest();
      }
    }

    /** Drop every expired entry. */
    method Purge(now: real)
      requires Valid() && clock <= now
      modifies this`entries, this`clock
      ensures Valid() && clock == now && entries.Keys <= old(entries).Keys
      ensures forall k :: k in entries <==> k in old(entries) && now < old(entries)[k].expiresAt
      ensures |entries| >= |old(entries)| ==> entries == old(entries)
    {
      var expired := set k | k in entries && now >= entries[k].expiresAt;
      DropExpired(entries, expired, ideal, evictions, clock, now, maxEntries);
      SizeWithout(entries, expired);
      hide Agree;
      entries := entries - expired;
      clock := now;
    }

    method EvictSoonest()
      requires Valid() && |entries| >= maxEntries && forall k :: k in entries ==> Live(entries[k], clock)
      modifies this`entries, this`evictions
      ensures Valid() && |entries| < maxEntries && entries.Keys <= old(entries).Keys
      ensures forall k :: k in old(entries) && k !in entries ==> k in evictions
      ensures forall k :: k in evictions ==>
                (k in old(evictions) && evictions[k] == old(evictions)[k])
                  || evictions[k] == Eviction(k, old(entries), clock)
    {
      var soonest := Soonest();
      assert RightlyEvicted(soonest, entries, clock, maxEntries);
      EvictEntry(entries, ideal, evictions, clock, maxEntries, soonest);
      SizeWithout(entries, {soonest});
      assert soonest in entries.Keys * {soonest};
      hide Agree;
      evictions := evictions[soonest := Eviction(soonest, entries, clock)];
      entries := entries - {soonest};
    }

    /** A set always lands; only a new key in a full store makes room first. */
    method Set(key: string, value: V, ttl: int, now: real, later: real) returns (r: Result<(), Error>)
      requires Valid() && clock <= now <= later
      modifies this
      ensures r.Failure? <==> ttl <= 0
      ensures r.Failure? ==> entries == old(entries) && ideal == old(ideal) && evictions == old(evictions)
      ensures Valid() && clock == if r.Success? then later else old(clock)
      ensures r.Success? ==> key in entries && ideal == old(ideal)[key := Entry(later + ttl as real, value)]
      ensures forall k :: k in old(entries) && k !in entries ==>
                key !in old(entries) && |old(entries)| >= maxEntries && (Live(old(entries)[k], now) ==> k in evictions)
      ensures forall k :: k in evictions ==>
                (k in old(evictions) && evictions[k] == old(evictions)[k])
                  || evictions[k] == Eviction(k, old(entries), now)
    {
      if ttl <= 0 {
        return Failure(ValueError);
      }
      if key !in entries && |entries| >= maxEntries {
        MakeRoom(now);
      }
      Write(key, Entry(later + ttl as real, value), later);
      r := Success(());
    }

    method Write(key: string, e: Entry<V>, later: real)
      requires Valid() && clock <= later && (key in entries || |entries| < maxEntries)
      modifies this
      ensures Valid() && clock == later && entries == old(entries)[key := e]
      ensures ideal == old(ideal)[key := e] && evictions == old(evictions) - {key}
    {
      PutEntry(entries, ideal, evictions, clock, later, maxEntries, key, e);
      SizeWith(entries, key, e);
      hide Agree;
      evictions := evictions - {key};
      ideal := ideal[key := e];
      entries := entries[key := e];
      clock := later;
    }
  }
}
