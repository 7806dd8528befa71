/**
 The two caches with least-recently-used eviction: EdgeCache (edge/edge_cache.py) and
 DistributedCacheFabric (replication/cache_replication.py). Both keep a running total of the
 sizes of their entries instead of adding them up.
 */
module LruCaches {
  import opened Collections
  import opened Options

  datatype Key = Key(name: string)

  /** `invalid` is used by the cache fabric only. */
  datatype Entry<V> = Entry(value: V, size: nat, ttl: real, created: real, used: real, invalid: bool)

  type Entries<V> = map<Key, Entry<V>>

  predicate Expired<V>(e: Entry<V>, now: real) {
    now - e.created > e.ttl
  }

  lemma UpdateForgets<K, T>(m: map<K, T>, k: K, t: T)
    ensures m[k := t] == (m - {k})[k := t] && m[k := t] - {k} == m - {k}
  {
  }

  // ----- The sum of the sizes --------------------------------------------------------------------

  ghost function Total<V(!new)>(m: Entries<V>): nat
    decreases |m|
  {
    if m == map[] then 0
    else
      var k :| k in m;
      Smaller(m, k);
      m[k].size + Total(m - {k})
  }

  lemma Smaller<V>(m: Entries<V>, k: Key)
    requires k in m
    ensures |m - {k}| == |m| - 1
  {
    assert (m - {k}).Keys == m.Keys - {k};
  }

  /** The order of summation does not matter. */
  lemma {:induction false} TotalWithout<V(!new)>(m: Entries<V>, k: Key)
    requires k in m
    ensures Total(m) == m[k].size + Total(m - {k})
    decreases |m|
  {
    var j :| j in m && Total(m) == m[j].size + Total(m - {j});
    if j != k {
      Smaller(m, j);
      Smaller(m, k);
      TotalWithout(m - {j}, k);
      TotalWithout(m - {k}, j);
      assert m - {j} - {k} == m - {k} - {j};
    }
  }

  /** Replacing an entry by one of the same size. */
  lemma TotalSameSize<V(!new)>(m: Entries<V>, k: Key, e: Entry<V>)
    requires k in m && e.size == m[k].size
    ensures Total(m[k := e]) == Total(m) && |m[k := e]| == |m|
  {
    TotalWithout(m, k);
    TotalWithout(m[k := e], k);
    assert m[k := e] - {k} == m - {k};
    assert m[k := e].Keys == m.Keys;
  }

  // ----- Eviction --------------------------------------------------------------------------------

  /** The limits of a cache: a total size, and for the edge cache also a number of entries. */
  datatype Limits = Limits(size: int, entries: Option<int>)

  /** The loop condition of both caches: something has to go before an entry of size `need` comes in. */
  predicate Over(count: nat, size: int, need: nat, limits: Limits) {
    (limits.entries.Some? && count >= limits.entries.value) || (size + need > limits.size && count > 0)
  }

  /**
   With room for no entry at all something has to go whatever is left, so that `put` never leaves
   its loop; and only then.
   */
  lemma NeverRoomIff(need: nat, limits: Limits)
    ensures (forall count: nat, size: int :: Over(count, size, need, limits)) <==>
        limits.entries.Some? && limits.entries.value <= 0
  {
    assert Over(0, 0, need, limits) <==> limits.entries.Some? && limits.entries.value <= 0;
  }

  ghost predicate Part<V>(a: Entries<V>, b: Entries<V>) {
    forall k :: k in a ==> k in b && a[k] == b[k]
  }

  ghost predicate NotOutlived<V>(before: Entries<V>, after: Entries<V>, gone: Key, kept: Key) {
    gone in before && gone !in after && kept in after ==> before[gone].used <= after[kept].used
  }

  /** Nothing that was evicted has been used more recently than anything that was kept. */
  ghost predicate LeastRecentGone<V>(before: Entries<V>, after: Entries<V>) {
    forall gone, kept {:trigger NotOutlived(before, after, gone, kept)} :: NotOutlived(before, after, gone, kept)
  }

  /** Evicting the oldest of what is left. */
  lemma OldestGoes<V>(before: Entries<V>, after: Entries<V>, victim: Key)
    requires Part(after, before) && LeastRecentGone(before, after)
    requires victim in after && forall k :: k in after ==> after[victim].used <= after[k].used
    ensures LeastRecentGone(before, after - {victim})
  {
    var less := after - {victim};
    forall gone, kept
      ensures NotOutlived(before, less, gone, kept)
    {
      assert NotOutlived(before, after, gone, kept);
    }
  }

  /**
   What making room for an entry of size `need` leaves: there is room, only least recently used
   entries have gone, and not one more than needed: with the last victim back in place there
   would be no room.
   */
  ghost predicate Trimmed<V(!new)>(before: Entries<V>, after: Entries<V>, need: nat, limits: Limits) {
    && Part(after, before) && LeastRecentGone(before, after)
    && (limits.entries.Some? ==> |after| < limits.entries.value)
    && (Total(after) + need <= limits.size || after == map[])
    && (after != before ==>
          exists k :: k in before && k !in after && Overfull(|after| + 1, Total(after) + before[k].size, need, limits))
  }

  /** One entry more, or this much more in size, is beyond a limit. */
  ghost predicate Overfull(count: int, size: int, need: nat, limits: Limits) {
    (limits.entries.Some? && limits.entries.value < count + 1) || limits.size < size + need
  }

  /** The eviction loop. */
  method Evict<V(!new)>(entries0: Entries<V>, size0: int, need: nat, limits: Limits)
      returns (entries: Entries<V>, size: int, evictions: nat)
    requires size0 == Total(entries0) && (limits.entries.Some? ==> limits.entries.value >= 1)
    ensures size == Total(entries) && Trimmed(entries0, entries, need, limits)
    ensures evictions == |entries0| - |entries|
  {
    entries, size, evictions := entries0, size0, 0;
    while Over(|entries|, size, need, limits)
      invariant size == Total(entries) && Part(entries, entries0)
      invariant LeastRecentGone(entries0, entries)
      invariant entries != entries0 ==>
          exists k :: k in entries0 && k !in entries && Over(|entries| + 1, size + entries0[k].size, need, limits)
      invariant evictions == |entries0| - |entries|
      decreases |entries|
    {
      var victim := LeastRanked(entries, (e: Entry<V>) => e.used);
      OldestGoes(entries0, entries, victim);
      TotalWithout(entries, victim);
      Smaller(entries, victim);
      size := size - entries[victim].size;
      entries := entries - {victim};
      evictions := evictions + 1;
      assert victim in entries0 && victim !in entries;
    }
  }

  /** Removes the given keys one after the other. */
  method RemoveAll<V(!new)>(entries0: Entries<V>, size0: int, gone: set<Key>) returns (entries: Entries<V>, size: int)
    requires size0 == Total(entries0) && gone <= entries0.Keys
    ensures entries == entries0 - gone && size == Total(entries)
  {
    entries, size := entries0, size0;
    var todo := gone;
    while todo != {}
      invariant todo <= gone && entries == entries0 - (gone - todo) && size == Total(entries)
      decreases todo
    {
      var k :| k in todo;
      TotalWithout(entries, k);
      size := size - entries[k].size;
      entries := entries - {k};
      todo := todo - {k};
      assert entries == entries0 - (gone - todo);
    }
    assert gone - todo == gone;
  }

  // ----- What every cache state satisfies --------------------------------------------------------

  /** Within the limits, except that a single oversized entry may stand alone. */
  ghost predicate Within<V>(entries: Entries<V>, size: int, limits: Limits) {
    && (limits.entries.Some? ==> |entries| <= limits.entries.value)
    && (size <= limits.size || |entries| <= 1)
  }

  /** What is held under a key is what was stored last under it. */
  ghost predicate Current<V>(entries: Entries<V>, latest: Entries<V>, k: Key) {
    k in entries ==> k in latest && latest[k] == entries[k].(used := latest[k].used)
  }

  ghost predicate UpToDate<V>(entries: Entries<V>, latest: Entries<V>) {
    forall k {:trigger Current(entries, latest, k)} :: Current(entries, latest, k)
  }

  lemma OneMoreCurrent<V>(entries: Entries<V>, latest: Entries<V>, k: Key, e: Entry<V>, last: Entry<V>)
    requires UpToDate(entries, latest) && last == e.(used := last.used)
    ensures UpToDate(entries[k := e], latest[k := last])
    ensures k in latest && latest[k] == last ==> UpToDate(entries[k := e], latest)
  {
    var entries', latest' := entries[k := e], latest[k := last];
    forall j
      ensures Current(entries', latest', j) && (k in latest && latest[k] == last ==> Current(entries', latest, j))
    {
      assert Current(entries, latest, j);
    }
  }

  ghost predicate Sound<V(!new)>(entries: Entries<V>, size: int, limits: Limits, latest: Entries<V>) {
    size == Total(entries) && Within(entries, size, limits) && UpToDate(entries, latest)
  }

  lemma ForgetIsUpToDate<V>(entries: Entries<V>, latest: Entries<V>, k: Key)
    requires UpToDate(entries, latest) && k !in entries
    ensures UpToDate(entries, latest - {k})
  {
    forall j
      ensures Current(entries, latest - {k}, j)
    {
      assert Current(entries, latest, j);
    }
  }

  lemma FewerIsSound<V(!new)>(entries: Entries<V>, fewer: Entries<V>, size: int, limits: Limits, latest: Entries<V>)
    requires Sound(entries, size, limits, latest) && Part(fewer, entries)
    ensures Sound(fewer, Total(fewer), limits, latest)
  {
    PartIsSmaller(fewer, entries);
    PartUpToDate(fewer, entries, latest);
  }

  lemma {:induction false} PartIsSmaller<V(!new)>(a: Entries<V>, b: Entries<V>)
    requires Part(a, b)
    ensures Total(a) <= Total(b) && |a| <= |b|
    decreases |b|
  {
    if a != map[] {
      var k :| k in a;
      TotalWithout(a, k);
      TotalWithout(b, k);
      Smaller(a, k);
      Smaller(b, k);
      PartIsSmaller(a - {k}, b - {k});
    }
  }

  lemma TotalAfterPut<V(!new)>(m: Entries<V>, k: Key, e: Entry<V>)
    ensures Total(m[k := e]) == Total(m) - (if k in m then m[k].size else 0) + e.size
    ensures |m[k := e]| == if k in m then |m| else |m| + 1
  {
    UpdateForgets(m, k, e);
    TotalWithout(m[k := e], k);
    Smaller(m[k := e], k);
    if k in m {
      TotalWithout(m, k);
      Smaller(m, k);
    } else {
      assert m - {k} == m;
    }
  }

  /** Storing an entry after eviction has made room for it; an old entry of the key is replaced. */
  lemma PutIsSound<V(!new)>(kept: Entries<V>, size: int, limits: Limits, latest: Entries<V>, k: Key, e: Entry<V>)
    requires size == Total(kept) && UpToDate(kept, latest) && !Over(|kept|, size, e.size, limits)
    ensures Sound(kept[k := e], size - (if k in kept then kept[k].size else 0) + e.size, limits, latest[k := e])
  {
    TotalAfterPut(kept, k, e);
    OneMoreCurrent(kept, latest, k, e, e);
  }

  lemma PartUpToDate<V>(part: Entries<V>, entries: Entries<V>, latest: Entries<V>)
    requires Part(part, entries) && UpToDate(entries, latest)
    ensures UpToDate(part, latest)
  {
    forall k
      ensures Current(part, latest, k)
    {
      assert Current(entries, latest, k);
    }
  }

  /** The common part of both `put`s: make room, then store the entry. */
  method MakeRoomAndPut<V(!new)>(entries0: Entries<V>, size0: int, limits: Limits, k: Key, e: Entry<V>,
      ghost latest: Entries<V>)
      returns (entries: Entries<V>, size: int, evictions: nat, ghost kept: Entries<V>)
    requires size0 == Total(entries0) && UpToDate(entries0, latest)
    requires limits.entries.Some? ==> limits.entries.value >= 1
    ensures Sound(entries, size, limits, latest[k := e]) && entries == kept[k := e]
    ensures Trimmed(entries0, kept, e.size, limits) && evictions == |entries0| - |kept|
  {
    entries, size, evictions := Evict(entries0, size0, e.size, limits);
    kept := entries;
    PartUpToDate(kept, entries0, latest);
    PutIsSound(kept, size, limits, latest, k, e);
    if k in entries {
      size := size - entries[k].size;
    }
    entries, size := entries[k := e], size + e.size;
  }

  /** Takes one entry out, if it is there. */
  method Drop<V(!new)>(entries0: Entries<V>, size0: int, k: Key, ghost limits: Limits, ghost latest: Entries<V>)
      returns (entries: Entries<V>, size: int)
    requires Sound(entries0, size0, limits, latest)
    ensures entries == entries0 - {k} && Sound(entries, size, limits, latest)
  {
    FewerIsSound(entries0, entries0 - {k}, size0, limits, latest);
    if k in entries0 {
      TotalWithout(entries0, k);
      entries, size := entries0 - {k}, size0 - entries0[k].size;
    } else {
      assert entries0 - {k} == entries0;
      entries, size := entries0, size0;
    }
  }

  lemma KeptIsRest<V>(before: Entries<V>, kept: Entries<V>, k: Key, e: Entry<V>)
    requires Part(kept, before) && k !in before
    ensures kept[k := e] - {k} == kept
  {
  }

  /** The edge cache's `put`: the old entry of the key goes before room is made. */
  method DropAndPut<V(!new)>(entries0: Entries<V>, size0: int, limits: Limits, k: Key, e: Entry<V>,
      ghost latest: Entries<V>)
      returns (entries: Entries<V>, size: int, evictions: nat)
    requires Sound(entries0, size0, limits, latest) && (limits.entries.Some? ==> limits.entries.value >= 1)
    ensures Sound(entries, size, limits, latest[k := e]) && k in entries && entries[k] == e
    ensures Trimmed(entries0 - {k}, entries - {k}, e.size, limits) && evictions == |entries0 - {k}| - |entries - {k}|
  {
    ghost var kept;
    var rest, restSize := Drop(entries0, size0, k, limits, latest);
    entries, size, evictions, kept := MakeRoomAndPut(rest, restSize, limits, k, e, latest);
    KeptIsRest(rest, kept, k, e);
  }

  /** Whether a held entry may be handed out; `flags` says whether the cache heeds invalidation. */
  predicate Usable<V>(e: Entry<V>, now: real, flags: bool) {
    !Expired(e, now) && !(flags && e.invalid)
  }

  /** The common part of both `get`s: an entry that may not be handed out is taken out, any other is marked as used. */
  method LookUp<V(!new)>(entries0: Entries<V>, size0: int, k: Key, now: real, flags: bool, ghost limits: Limits,
      ghost latest: Entries<V>)
      returns (entries: Entries<V>, size: int, found: Option<Entry<V>>)
    requires Sound(entries0, size0, limits, latest)
    ensures Sound(entries, size, limits, latest)
    ensures found.Some? <==>
      k in entries0 && now - entries0[k].created <= entries0[k].ttl && !(flags && entries0[k].invalid)
    ensures found.Some? ==> k in latest && found.value == latest[k].(used := now)
    ensures found.Some? ==> now - latest[k].created <= latest[k].ttl && !(flags && latest[k].invalid)
    ensures entries == if found.Some? then entries0[k := entries0[k].(used := now)] else entries0 - {k}
  {
    if k in entries0 && Usable(entries0[k], now, flags) {
      var e := entries0[k].(used := now);
      assert Current(entries0, latest, k);
      TotalSameSize(entries0, k, e);
      OneMoreCurrent(entries0, latest, k, e, latest[k]);
      entries, size, found := entries0[k := e], size0, Some(e);
    } else {
      entries, size := Drop(entries0, size0, k, limits, latest);
      found := None;
    }
  }

  /** The common part of both clean-ups: exactly the entries that may not be handed out are taken out. */
  method Clean<V(!new)>(entries0: Entries<V>, size0: int, now: real, flags: bool, ghost limits: Limits,
      ghost latest: Entries<V>)
      returns (entries: Entries<V>, size: int, removed: nat)
    requires Sound(entries0, size0, limits, latest)
    ensures Sound(entries, size, limits, latest) && removed == |entries0| - |entries|
    ensures entries == map k | k in entries0 && now - entries0[k].created <= entries0[k].ttl
        && !(flags && entries0[k].invalid) :: entries0[k]
  {
    var gone := set k | k in entries0 && !Usable(entries0[k], now, flags);
    FewerIsSound(entries0, entries0 - gone, size0, limits, latest);
    entries, size := RemoveAll(entries0, size0, gone);
    removed := |gone|;
    assert entries.Keys == entries0.Keys - gone;
  }

  class EdgeCache<V(!new)> {
    const limits: Limits
    var entries: Entries<V>
    var currentSize: int
    var hitCount: nat
    var missCount: nat
    var evictionCount: nat
    ghost var latest: Entries<V>

    ghost predicate Valid()
      reads this
    {
      limits.entries.Some? && limits.entries.value >= 1 && Sound(entries, currentSize, limits, latest)
    }

    constructor (maxEntries: int, maxSizeBytes: int)
      requires maxEntries >= 1
      ensures Valid() && entries == map[] && limits == Limits(maxSizeBytes, Some(maxEntries))
    {
      limits := Limits(maxSizeBytes, Some(maxEntries));
      entries, currentSize, latest := map[], 0, map[];
      hitCount, missCount, evictionCount := 0, 0, 0;
    }

    /** A value is returned exactly for a held, unexpired entry, and it is the one stored last. */
    method Get(k: Key, now: real) returns (value: Option<V>)
      requires Valid()
      modifies this`entries, this`currentSize, this`hitCount, this`missCount
      ensures Valid()
      ensures value.Some? <==> k in old(entries) && now - old(entries)[k].created <= old(entries)[k].ttl
      ensures value.Some? ==>
        k in latest && value.value == latest[k].value && now - latest[k].created <= latest[k].ttl
      ensures value.Some? ==> entries == old(entries)[k := old(entries)[k].(used := now)]
      ensures value.None? ==> entries == old(entries) - {k}
      ensures hitCount + missCount == old(hitCount) + old(missCount) + 1
          && (hitCount == old(hitCount) + 1 <==> value.Some?)
    {
      var found;
      entries, currentSize, found := LookUp(entries, currentSize, k, now, false, limits, latest);
      if found == None {
        missCount := missCount + 1;
        return None;
      }
      hitCount := hitCount + 1;
      return Some(found.value.value);
    }

    /** The old entry of the key goes first, then as many least recently used ones as necessary. */
    method Put(k: Key, value: V, size: nat, ttl: real, now: real)
      requires Valid()
      modifies this`entries, this`currentSize, this`evictionCount, this`latest
      ensures Valid()
      ensures latest == old(latest)[k := Entry(value, size, ttl, now, now, false)]
      ensures k in entries && entries[k] == latest[k]
      ensures Trimmed(old(entries) - {k}, entries - {k}, size, limits)
      ensures evictionCount == old(evictionCount) + |old(entries) - {k}| - |entries - {k}|
    {
      var entry := Entry(value, size, ttl, now, now, false);
      var evictions;
      entries, currentSize, evictions := DropAndPut(entries, currentSize, limits, k, entry, latest);
      evictionCount := evictionCount + evictions;
      latest := latest[k := entry];
    }

    method Delete(k: Key) returns (found: bool)
      requires Valid()
      modifies this`entries, this`currentSize, this`latest
      ensures Valid() && found == (k in old(entries)) && entries == old(entries) - {k}
      ensures latest == old(latest) - {k}
    {
      found := k in entries;
      entries, currentSize := Drop(entries, currentSize, k, limits, latest);
      ForgetIsUpToDate(entries, latest, k);
      latest := latest - {k};
    }

    /** Exactly the expired entries are removed. */
    method CleanupExpired(now: real) returns (removed: nat)
      requires Valid()
      modifies this`entries, this`currentSize
      ensures Valid()
      ensures entries == map k | k in old(entries) && now - old(entries)[k].created <= old(entries)[k].ttl ::
          old(entries)[k]
      ensures removed == |old(entries)| - |entries|
    {
      entries, currentSize, removed := Clean(entries, currentSize, now, false, limits, latest);
    }
  }

  class DistributedCacheFabric<V(!new)> {
    const limits: Limits
    var entries: Entries<V>
    var currentSize: int
    var hitCount: nat
    var missCount: nat
    var evictionCount: nat
    ghost var latest: Entries<V>

    ghost predicate Valid()
      reads this
    {
      limits.entries == None && Sound(entries, currentSize, limits, latest)
    }

    constructor (maxSizeBytes: int)
      ensures Valid() && entries == map[] && limits == Limits(maxSizeBytes, None)
    {
      limits := Limits(maxSizeBytes, None);
      entries, currentSize, latest := map[], 0, map[];
      hitCount, missCount, evictionCount := 0, 0, 0;
    }

    /** Room is made first, counting the old entry of the key as well; then the old entry is replaced. */
    method Put(k: Key, value: V, size: nat, ttl: real, now: real)
      requires Valid()
      modifies this`entries, this`currentSize, this`evictionCount, this`latest
      ensures Valid()
      ensures latest == old(latest)[k := Entry(value, size, ttl, now, now, false)]
      ensures exists kept ::
        && Trimmed(old(entries), kept, size, limits) && entries == kept[k := latest[k]]
        && evictionCount == old(evictionCount) + |old(entries)| - |kept|
    {
      var entry := Entry(value, size, ttl, now, now, false);
      var evictions;
      ghost var kept;
      entries, currentSize, evictions, kept := MakeRoomAndPut(entries, currentSize, limits, k, entry, latest);
      evictionCount := evictionCount + evictions;
      latest := latest[k := entry];
    }

    /** An entry is returned exactly if it is held, unexpired and not invalidated, and it is the one stored last. */
    method Get(k: Key, now: real) returns (entry: Option<Entry<V>>)
      requires Valid()
      modifies this`entries, this`currentSize, this`hitCount, this`missCount
      ensures Valid()
      ensures entry.Some? <==>
        k in old(entries) && now - old(entries)[k].created <= old(entries)[k].ttl && !old(entries)[k].invalid
      ensures entry.Some? ==> k in latest && entry.value == latest[k].(used := now)
      ensures entry.Some? ==> now - latest[k].created <= latest[k].ttl && !latest[k].invalid
      ensures entry.Some? ==> entries == old(entries)[k := old(entries)[k].(used := now)]
      ensures entry.None? ==> entries == old(entries) - {k}
      ensures hitCount + missCount == old(hitCount) + old(missCount) + 1
          && (hitCount == old(hitCount) + 1 <==> entry.Some?)
    {
      entries, currentSize, entry := LookUp(entries, currentSize, k, now, true, limits, latest);
      if entry == None {
        missCount := missCount + 1;
      } else {
        hitCount := hitCount + 1;
      }
    }

    /** Once invalidated, an entry is not returned until something new is stored under its key. */
    method Invalidate(k: Key) returns (found: bool)
      requires Valid()
      modifies this`entries, this`latest
      ensures Valid() && found == (k in old(entries))
      ensures entries == if found then old(entries)[k := old(entries)[k].(invalid := true)] else old(entries)
      ensures found ==> k in old(latest) && latest == old(latest)[k := old(latest)[k].(invalid := true)]
      ensures !found ==> latest == old(latest)
    {
      if k !in entries {
        return false;
      }
      assert Current(entries, latest, k);
      TotalSameSize(entries, k, entries[k].(invalid := true));
      OneMoreCurrent(entries, latest, k, entries[k].(invalid := true), latest[k].(invalid := true));
      entries := entries[k := entries[k].(invalid := true)];
      latest := latest[k := latest[k].(invalid := true)];
      return true;
    }

    method CleanupExpired(now: real) returns (removed: nat)
      requires Valid()
      modifies this`entries, this`currentSize, this`evictionCount
      ensures Valid()
      ensures entries == map k | k in old(entries) && now - old(entries)[k].created <= old(entries)[k].ttl
          && !old(entries)[k].invalid :: old(entries)[k]
      ensures removed == |old(entries)| - |entries| && evictionCount == old(evictionCount) + removed
    {
      entries, currentSize, removed := Clean(entries, currentSize, now, true, limits, latest);
      evictionCount := evictionCount + removed;
    }
  }
}
