/**
 Properties that relate several cache operations: the cache seen as a bounded
 map, round trips between insertion and removal, eviction order, and the
 orderings pinned by the unit tests of `lru_cache.rs`.
 */
module LruProperties {
  import opened Maybe
  import opened Entries
  import opened Lru

  // ---------------------------------------------------------------------------
  // The map view
  // ---------------------------------------------------------------------------

  /** Attaching an entry with a new key at the back adds just that key to the map view. */
  lemma {:induction false} AsMapAppend<K, V>(s: seq<Entry<K, V>>, e: Entry<K, V>)
    requires e.key !in KeySet(s)
    ensures AsMap(s + [e]) == AsMap(s)[e.key := e.value]
  {
    if |s| == 0 {
      assert s + [e] == [e];
      assert [e][1..] == [];
    } else {
      assert (s + [e])[1..] == s[1..] + [e];
      assert (s + [e])[0] == s[0];
      AsMapAppend(s[1..], e);
    }
  }

  /** Dropping the least recently used entry removes just its key from the map view. */
  lemma AsMapDropLast<K, V>(s: seq<Entry<K, V>>)
    requires DistinctKeys(s) && |s| > 0
    ensures AsMap(s[..|s| - 1]) == AsMap(s) - {s[|s| - 1].key}
  {
    var n := |s| - 1;
    assert s == s[..n] + [s[n]];
    DropLastKeys(s);
    AsMapAppend(s[..n], s[n]);
  }

  /** The key an insertion of `k` pushes out, if any. */
  function Evicted<K(==), V>(c: LruCache<K, V>, k: K): set<K>
    requires Valid(c)
  {
    if k !in KeySet(c.entries) && Len(c) == c.cap then {Last(c).key} else {}
  }

  /**
   Seen as a map, every insertion is a map update after evicting the least
   recently used key, and that eviction happens only for a new key in a full
   cache.
   */
  lemma InsertedMapView<K, V>(c: LruCache<K, V>, k: K, v: V, r: LruCache<K, V>)
    requires Valid(c) && Inserted(c, k, v, r)
    ensures AsMap(r.entries) == (AsMap(c.entries) - Evicted(c, k))[k := v]
  {
    var w := Without(c.entries, k);
    var n := Len(r) - 1;
    assert r.entries == [Entry(k, v)] + w[..n];
    assert ([Entry(k, v)] + w[..n])[1..] == w[..n];
    AsMapWithout(c.entries, k);
    WithoutDistinct(c.entries, k);
    if n < |w| {
      WithoutAbsent(c.entries, k);
      AsMapDropLast(c.entries);
    } else {
      assert w[..n] == w;
    }
  }

  /** `put` refines a bounded map: update `k`, evicting the tail key only when needed. */
  lemma PutMapView<K, V>(c: LruCache<K, V>, k: K, v: V)
    requires Valid(c)
    ensures AsMap(Put(c, k, v).cache.entries) == (AsMap(c.entries) - Evicted(c, k))[k := v]
    ensures Len(Put(c, k, v).cache) <= c.cap
  {
    InsertedMapView(c, k, v, Put(c, k, v).cache);
  }

  /** Moving an entry to either end of the list leaves the contents of the cache alone. */
  lemma ReorderMapView<K, V>(c: LruCache<K, V>, k: K)
    requires Valid(c)
    ensures AsMap(Promote(c, k).entries) == AsMap(c.entries)
    ensures AsMap(Demote(c, k).entries) == AsMap(c.entries)
    ensures AsMap(Get(c, k).cache.entries) == AsMap(c.entries)
  {
    if k in KeySet(c.entries) {
      var i := IndexOf(c.entries, k);
      var v := c.entries[i].value;
      var w := Without(c.entries, k);
      LookupAt(c.entries, i);
      AsMapWithout(c.entries, k);
      AsMapLookup(c.entries, k);
      WithoutSplice(c.entries, i);
      assert Promote(c, k).entries == [Entry(k, v)] + w;
      assert ([Entry(k, v)] + w)[1..] == w;
      assert AsMap([Entry(k, v)] + w) == AsMap(w)[k := v];
      assert Demote(c, k).entries == w + [Entry(k, v)];
      AsMapAppend(w, Entry(k, v));
      RestoreKey(AsMap(c.entries), k);
    }
  }

  /** Putting a key's own value back after removing it gives the map back. */
  lemma RestoreKey<K, V>(m: map<K, V>, k: K)
    requires k in m
    ensures (m - {k})[k := m[k]] == m
  {
  }

  /** `pop` and `pop_entry` remove just `k` from the map view. */
  lemma PopMapView<K, V>(c: LruCache<K, V>, k: K)
    requires Valid(c)
    ensures AsMap(Pop(c, k).cache.entries) == AsMap(c.entries) - {k}
    ensures AsMap(PopEntry(c, k).cache.entries) == AsMap(c.entries) - {k}
  {
    WithoutDistinct(c.entries, k);
    AsMapWithout(c.entries, k);
    if k in KeySet(c.entries) {
      WithoutSplice(c.entries, IndexOf(c.entries, k));
    } else {
      WithoutAbsent(c.entries, k);
    }
  }

  // ---------------------------------------------------------------------------
  // Round trips and idempotence
  // ---------------------------------------------------------------------------

  /** A value put in is the value `get` finds, moved to the head. */
  lemma GetAfterPut<K, V>(c: LruCache<K, V>, k: K, v: V)
    requires Valid(c)
    ensures Get(Put(c, k, v).cache, k).out == Some(v)
    ensures Get(Put(c, k, v).cache, k).cache == Put(c, k, v).cache
  {
    var r := Put(c, k, v).cache;
    LookupAt(r.entries, 0);
    SpliceFront(r);
  }

  /** Splicing out the head of a list and attaching it again gives back the list. */
  lemma SpliceFront<K, V>(r: LruCache<K, V>)
    requires Valid(r) && Len(r) > 0
    ensures MoveToFront(r, r.entries[0].key) == r
  {
    var k := r.entries[0].key;
    assert IndexOf(r.entries, k) == 0;
    assert [r.entries[0]] + r.entries[..0] + r.entries[1..] == r.entries;
  }

  /**
   An insertion that evicts nothing is undone by popping the same key: the
   popped value is the one put in, and the rest of the cache is exactly the
   cache before the insertion with `k` unlinked.
   */
  lemma PopAfterPut<K, V>(c: LruCache<K, V>, k: K, v: V)
    requires Valid(c) && (k in KeySet(c.entries) || Len(c) < c.cap)
    ensures Pop(Put(c, k, v).cache, k).out == Some(v)
    ensures Pop(Put(c, k, v).cache, k).cache == Unlink(c, k)
  {
    var r := Put(c, k, v).cache;
    var w := Without(c.entries, k);
    WithoutDistinct(c.entries, k);
    assert r.entries[1..] == w;
    assert IndexOf(r.entries, k) == 0;
    assert r.entries[..0] + r.entries[1..] == w;
    if k in KeySet(c.entries) {
      WithoutSplice(c.entries, IndexOf(c.entries, k));
    } else {
      WithoutAbsent(c.entries, k);
    }
  }

  /** A new key put into a cache with room, then popped, leaves the cache as it was. */
  lemma PutPopRoundTrip<K, V>(c: LruCache<K, V>, k: K, v: V)
    requires Valid(c) && k !in KeySet(c.entries) && Len(c) < c.cap
    ensures Pop(Put(c, k, v).cache, k) == Step(c, Some(v))
  {
    PopAfterPut(c, k, v);
  }

  /** Putting the same pair twice is the same as putting it once; the second call returns `v`. */
  lemma PutIdempotent<K, V>(c: LruCache<K, V>, k: K, v: V)
    requires Valid(c)
    ensures Put(Put(c, k, v).cache, k, v).cache == Put(c, k, v).cache
    ensures Put(Put(c, k, v).cache, k, v).out == Some(v)
  {
    var r := Put(c, k, v).cache;
    var r2 := Put(r, k, v).cache;
    LookupAt(r.entries, 0);
    assert IndexOf(r.entries, k) == 0;
    WithoutSplice(r.entries, 0);
    assert r.entries[..0] + r.entries[1..] == r.entries[1..];
    assert r2.entries == [Entry(k, v)] + r.entries[1..];
  }

  // ---------------------------------------------------------------------------
  // Eviction order
  // ---------------------------------------------------------------------------

  /**
   A new key pushed into a full cache evicts exactly the entry `peek_last`
   showed: `push` hands that pair back, `put` returns `None`, and the key set
   loses the tail key and gains the new one.
   */
  lemma FullInsertEvictsTail<K, V>(c: LruCache<K, V>, k: K, v: V)
    requires Valid(c) && k !in KeySet(c.entries) && Len(c) == c.cap
    ensures Push(c, k, v).out == PeekLast(c)
    ensures Put(c, k, v).out == None
    ensures Put(c, k, v).cache == Push(c, k, v).cache
    ensures KeySet(Put(c, k, v).cache.entries) == KeySet(c.entries) - {Last(c).key} + {k}
    ensures Len(Put(c, k, v).cache) == Len(c)
  {
    PutMapView(c, k, v);
  }

  /** After `demote`, the next `pop_last` removes that key with its value. */
  lemma DemoteThenPopLast<K, V>(c: LruCache<K, V>, k: K)
    requires Valid(c) && k in KeySet(c.entries)
    ensures PopLast(Demote(c, k)).out == Some(Entry(k, Peek(c, k).value))
  {
  }

  /**
   After `promote`, a key survives the eviction caused by inserting a new key
   into a full cache, as long as it is not the only entry.
   */
  lemma PromoteSurvivesEviction<K, V>(c: LruCache<K, V>, k: K, k': K, v: V)
    requires Valid(c) && k in KeySet(c.entries) && k' !in KeySet(c.entries)
    requires Len(c) == c.cap && c.cap >= 2
    ensures k in KeySet(Put(Promote(c, k), k', v).cache.entries)
  {
    var p := Promote(c, k);
    assert p.entries[0].key == k;
    assert KeySet(p.entries) == KeySet(c.entries);
    FullInsertEvictsTail(p, k', v);
    assert Last(p).key != k;
  }
}
