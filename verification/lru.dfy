/**
 The LRU cache of `lru_cache.rs` as an immutable value: its entries in recency
 order (most recently used first) and its capacity. Every operation of the
 `Cache` trait is a pure function from the cache before the call to the cache
 after it, paired with what the call returns.
 */
module Lru {
  import opened Maybe
  import opened Entries

  /** `usize::MAX`: the capacity an unbounded cache is built with. */
  const USIZE_MAX: nat := 0xFFFF_FFFF_FFFF_FFFF

  /** A `NonZeroUsize`. */
  type Capacity = n: nat | 0 < n <= USIZE_MAX witness 1

  datatype LruCache<K, V> = LruCache(entries: seq<Entry<K, V>>, cap: Capacity)

  /** The state after a call, and what the call handed back. */
  datatype Step<K, V, R> = Step(cache: LruCache<K, V>, out: R)

  /**
   The representation invariant: the hash map and the list hold the same keys,
   each once, and there are never more of them than the capacity.
   */
  predicate Valid<K(==), V>(c: LruCache<K, V>) {
    DistinctKeys(c.entries) && |c.entries| <= c.cap
  }

  function Len<K, V>(c: LruCache<K, V>): nat {
    |c.entries|
  }

  function IsEmpty<K, V>(c: LruCache<K, V>): bool {
    Len(c) == 0
  }

  /** The entry right before the tail sentinel: the least recently used one. */
  function Last<K, V>(c: LruCache<K, V>): Entry<K, V>
    requires Len(c) > 0
  {
    c.entries[Len(c) - 1]
  }

  /** An empty cache that holds at most `cap` entries. */
  function New<K(==), V>(cap: Capacity): (c: LruCache<K, V>)
    ensures Valid(c) && IsEmpty(c) && c.cap == cap
  {
    LruCache([], cap)
  }

  /** An empty cache that never evicts: its capacity is `usize::MAX`. */
  function Unbounded<K(==), V>(): (c: LruCache<K, V>)
    ensures Valid(c) && IsEmpty(c) && c.cap == USIZE_MAX
  {
    LruCache([], USIZE_MAX)
  }

  // ---------------------------------------------------------------------------
  // List surgery: detach, attach, attach_last
  // ---------------------------------------------------------------------------

  /** Detach the node for `k` and attach it after the head sentinel. */
  function MoveToFront<K(==), V>(c: LruCache<K, V>, k: K): (r: LruCache<K, V>)
    requires Valid(c)
    ensures Valid(r) && r.cap == c.cap && Len(r) == Len(c)
    ensures KeySet(r.entries) == KeySet(c.entries)
    ensures k in KeySet(c.entries) ==>
      var i := IndexOf(c.entries, k);
      r.entries == [c.entries[i]] + c.entries[..i] + c.entries[i + 1..]
    ensures k !in KeySet(c.entries) ==> r == c
  {
    match Lookup(c.entries, k)
    case None => c
    case Some(v) =>
      var i := IndexOf(c.entries, k);
      LookupAt(c.entries, i);
      WithoutSplice(c.entries, i);
      SpliceDistinct(c.entries, i);
      DistinctCons(c.entries[i], Without(c.entries, k));
      KeySetAppend([c.entries[i]], Without(c.entries, k));
      assert [c.entries[i]][1..] == [];
      LruCache([Entry(k, v)] + Without(c.entries, k), c.cap)
  }

  /** Detach the node for `k` and attach it before the tail sentinel. */
  function MoveToBack<K(==), V>(c: LruCache<K, V>, k: K): (r: LruCache<K, V>)
    requires Valid(c)
    ensures Valid(r) && r.cap == c.cap && Len(r) == Len(c)
    ensures KeySet(r.entries) == KeySet(c.entries)
    ensures k in KeySet(c.entries) ==>
      var i := IndexOf(c.entries, k);
      r.entries == c.entries[..i] + c.entries[i + 1..] + [c.entries[i]]
    ensures k !in KeySet(c.entries) ==> r == c
  {
    match Lookup(c.entries, k)
    case None => c
    case Some(v) =>
      var i := IndexOf(c.entries, k);
      LookupAt(c.entries, i);
      WithoutSplice(c.entries, i);
      SpliceDistinct(c.entries, i);
      AppendDistinct(Without(c.entries, k), c.entries[i]);
      LruCache(Without(c.entries, k) + [Entry(k, v)], c.cap)
  }

  /** Attaching an entry with a new key at the back keeps keys distinct. */
  lemma AppendDistinct<K, V>(s: seq<Entry<K, V>>, e: Entry<K, V>)
    requires DistinctKeys(s) && e.key !in KeySet(s)
    ensures DistinctKeys(s + [e]) && KeySet(s + [e]) == KeySet(s) + {e.key}
  {
    KeySetAppend(s, [e]);
    assert [e][1..] == [];
    forall i | 0 <= i < |s| ensures s[i].key != e.key {
      InKeySet(s, i);
    }
  }

  /**
   `replace_or_create_node`: when the cache is full, the tail entry is unlinked
   from the map and the list to make room for the caller's new node, and handed
   back; otherwise nothing is unlinked. The caller attaches the new node.
   */
  function ReplaceOrCreateNode<K(==), V>(c: LruCache<K, V>): (r: Step<K, V, Option<Entry<K, V>>>)
    requires Valid(c)
    ensures Valid(r.cache) && r.cache.cap == c.cap && Len(r.cache) < c.cap
    ensures r.out.Some? <==> Len(c) == c.cap
    ensures r.cache.entries + (if r.out.Some? then [r.out.value] else []) == c.entries
    ensures r.out.Some? ==> KeySet(r.cache.entries) == KeySet(c.entries) - {r.out.value.key}
    ensures r.out.None? ==> r.cache == c
  {
    if Len(c) == c.cap then
      DropLastKeys(c.entries);
      Step(LruCache(c.entries[..Len(c) - 1], c.cap), Some(Last(c)))
    else
      Step(c, None)
  }

  // ---------------------------------------------------------------------------
  // Insertion: put, push, get_or_insert
  // ---------------------------------------------------------------------------

  /**
   What every insertion of `k` with value `v` does to the list: the entry for
   `k` ends up at the head holding `v`, every other entry keeps its value and
   its relative order, and only the least recently used entry can fall off,
   and only when `k` is new and the cache is full.
   */
  ghost predicate Inserted<K, V>(c: LruCache<K, V>, k: K, v: V, r: LruCache<K, V>)
    requires Valid(c)
  {
    && Valid(r)
    && r.cap == c.cap
    && Len(r) == (if k in KeySet(c.entries) || Len(c) == c.cap then Len(c) else Len(c) + 1)
    && Len(r) > 0
    && r.entries[0] == Entry(k, v)
    && Len(r) - 1 <= |Without(c.entries, k)|
    && r.entries[1..] == Without(c.entries, k)[..Len(r) - 1]
  }

  /** Updating a present key: the new value goes to the head, the rest keeps its order. */
  lemma InsertedPresent<K, V>(c: LruCache<K, V>, k: K, v: V)
    requires Valid(c) && k in KeySet(c.entries)
    ensures Inserted(c, k, v, LruCache([Entry(k, v)] + Without(c.entries, k), c.cap))
  {
    WithoutDistinct(c.entries, k);
    InsertFresh(Without(c.entries, k), k, v);
  }

  /** Inserting a new key: room is made first, then the new entry goes to the head. */
  lemma InsertedAbsent<K, V>(c: LruCache<K, V>, k: K, v: V)
    requires Valid(c) && k !in KeySet(c.entries)
    ensures Inserted(c, k, v, LruCache([Entry(k, v)] + ReplaceOrCreateNode(c).cache.entries, c.cap))
  {
    var room := ReplaceOrCreateNode(c);
    WithoutAbsent(c.entries, k);
    assert room.cache.entries == c.entries[..Len(room.cache)];
    InsertFresh(room.cache.entries, k, v);
  }

  /** Entering a key that is absent into a cache with room for it. */
  lemma InsertFresh<K, V>(s: seq<Entry<K, V>>, k: K, v: V)
    requires DistinctKeys(s) && k !in KeySet(s)
    ensures DistinctKeys([Entry(k, v)] + s)
    ensures KeySet([Entry(k, v)] + s) == KeySet(s) + {k}
    ensures ([Entry(k, v)] + s)[1..] == s
  {
    DistinctCons(Entry(k, v), s);
    KeySetAppend([Entry(k, v)], s);
    assert [Entry(k, v)][1..] == [];
  }

  /**
   `capturing_put`: shared by `put` and `push`. For a present key the value is
   swapped and the node moved to the head; the old pair comes back. For a new
   key a node is made (evicting the tail if the cache is full) and attached at
   the head; the evicted pair comes back only when `capture` is set.
   */
  function CapturingPut<K(==), V>(c: LruCache<K, V>, k: K, v: V, capture: bool)
    : (r: Step<K, V, Option<Entry<K, V>>>)
    requires Valid(c)
    ensures Inserted(c, k, v, r.cache)
    ensures k in KeySet(c.entries) ==> r.out == Some(Entry(k, Lookup(c.entries, k).value))
    ensures k !in KeySet(c.entries) && capture && Len(c) == c.cap ==> r.out == Some(Last(c))
    ensures k !in KeySet(c.entries) && !(capture && Len(c) == c.cap) ==> r.out == None
  {
    match Lookup(c.entries, k)
    case Some(prev) =>
      InsertedPresent(c, k, v);
      Step(LruCache([Entry(k, v)] + Without(c.entries, k), c.cap), Some(Entry(k, prev)))
    case None =>
      var room := ReplaceOrCreateNode(c);
      InsertedAbsent(c, k, v);
      Step(LruCache([Entry(k, v)] + room.cache.entries, c.cap), if capture then room.out else None)
  }

  /**
   `put`: insert or update `k`. Returns the previous value when `k` was
   present, and `None` for a new key, even when that insertion evicted the
   least recently used entry.
   */
  function Put<K(==), V>(c: LruCache<K, V>, k: K, v: V): (r: Step<K, V, Option<V>>)
    requires Valid(c)
    ensures Valid(r.cache)
    ensures Inserted(c, k, v, r.cache)
    ensures r.out == Lookup(c.entries, k)
  {
    var p := CapturingPut(c, k, v, false);
    Step(p.cache, if p.out.Some? then Some(p.out.value.value) else None)
  }

  /**
   `push`: insert or update `k`. Returns the old pair when `k` was present,
   the evicted pair when a new key pushed the least recently used entry out,
   and `None` otherwise.
   */
  function Push<K(==), V>(c: LruCache<K, V>, k: K, v: V): (r: Step<K, V, Option<Entry<K, V>>>)
    requires Valid(c)
    ensures Valid(r.cache)
    ensures Inserted(c, k, v, r.cache)
    ensures r.out.None? <==> k !in KeySet(c.entries) && Len(c) < c.cap
    ensures k in KeySet(c.entries) ==> r.out == Some(Entry(k, Lookup(c.entries, k).value))
    ensures k !in KeySet(c.entries) && Len(c) == c.cap ==> r.out == Some(Last(c))
  {
    CapturingPut(c, k, v, true)
  }

  /**
   `get_or_insert`: a present key behaves like `get` and the default is
   ignored; an absent key is inserted with the default, evicting the least
   recently used entry if the cache is full, and the default comes back.
   */
  function GetOrInsert<K(==), V>(c: LruCache<K, V>, k: K, default: V): (r: Step<K, V, V>)
    requires Valid(c)
    ensures k in KeySet(c.entries) ==> r.out == Lookup(c.entries, k).value
    ensures k in KeySet(c.entries) ==> r.cache == MoveToFront(c, k)
    ensures k !in KeySet(c.entries) ==> r.out == default && Inserted(c, k, default, r.cache)
    ensures Lookup(r.cache.entries, k) == Some(r.out)
  {
    match Lookup(c.entries, k)
    case Some(v) =>
      var i := IndexOf(c.entries, k);
      LookupAt(c.entries, i);
      var m := MoveToFront(c, k);
      LookupAt(m.entries, 0);
      Step(m, v)
    case None =>
      var room := ReplaceOrCreateNode(c);
      WithoutAbsent(c.entries, k);
      assert room.cache.entries == c.entries[..Len(room.cache)];
      InsertFresh(room.cache.entries, k, default);
      var r := LruCache([Entry(k, default)] + room.cache.entries, c.cap);
      LookupAt(r.entries, 0);
      Step(r, default)
  }

  /**
   `get_or_insert_mut`: `get_or_insert`, after which the caller writes
   `write(v)` through the returned reference, `v` being the value it returned.
   */
  function GetOrInsertMut<K(==), V>(c: LruCache<K, V>, k: K, default: V, write: V -> V)
    : (r: Step<K, V, V>)
    requires Valid(c)
    ensures k in KeySet(c.entries) ==> r.out == Lookup(c.entries, k).value
    ensures k !in KeySet(c.entries) ==> r.out == default
    ensures Inserted(c, k, write(r.out), r.cache)
    ensures k in KeySet(c.entries) ==> Len(r.cache) == Len(c)
  {
    var g := GetOrInsert(c, k, default);
    WithoutDistinct(g.cache.entries, k);
    SetHead(g.cache, write(g.out));
    if k in KeySet(c.entries) then
      var i := IndexOf(c.entries, k);
      WithoutSplice(c.entries, i);
      Step(LruCache([Entry(k, write(g.out))] + g.cache.entries[1..], c.cap), g.out)
    else
      Step(LruCache([Entry(k, write(g.out))] + g.cache.entries[1..], c.cap), g.out)
  }

  /** Overwriting the value at the head of a valid cache keeps it valid. */
  lemma SetHead<K, V>(c: LruCache<K, V>, v: V)
    requires Valid(c) && Len(c) > 0
    ensures Valid(LruCache([Entry(c.entries[0].key, v)] + c.entries[1..], c.cap))
  {
    var s := [Entry(c.entries[0].key, v)] + c.entries[1..];
    assert forall i :: 0 <= i < |s| ==> s[i].key == c.entries[i].key;
  }

  // ---------------------------------------------------------------------------
  // Lookups: get, get_mut, peek, peek_mut, peek_last, contains
  // ---------------------------------------------------------------------------

  /**
   `get`: the value stored under `k`, or `None` exactly when `k` is absent. A
   hit moves `k` to the head; a miss changes nothing.
   */
  function Get<K(==), V>(c: LruCache<K, V>, k: K): (r: Step<K, V, Option<V>>)
    requires Valid(c)
    ensures r.cache == MoveToFront(c, k)
    ensures r.out.None? <==> k !in KeySet(c.entries)
    ensures r.out.Some? ==> r.out.value == c.entries[IndexOf(c.entries, k)].value
    ensures r.out.Some? ==> r.cache.entries[0] == Entry(k, r.out.value)
  {
    var v := Lookup(c.entries, k);
    if v.Some? then
      LookupAt(c.entries, IndexOf(c.entries, k));
      Step(MoveToFront(c, k), v)
    else
      Step(c, v)
  }

  /**
   `get_mut`: `get`, after which the caller writes `write(v)` through the
   returned reference, `v` being the value it returned.
   */
  function GetMut<K(==), V>(c: LruCache<K, V>, k: K, write: V -> V): (r: Step<K, V, Option<V>>)
    requires Valid(c)
    ensures r.out == Lookup(c.entries, k)
    ensures r.out.None? ==> r.cache == c
    ensures r.out.Some? ==> Inserted(c, k, write(r.out.value), r.cache) && Len(r.cache) == Len(c)
  {
    var g := Get(c, k);
    if g.out.Some? then
      InsertedPresent(c, k, write(g.out.value));
      Step(LruCache([Entry(k, write(g.out.value))] + Without(c.entries, k), c.cap), g.out)
    else
      g
  }

  /** `peek`: the value stored under `k`, or `None`; the order is left as it is. */
  function Peek<K(==), V>(c: LruCache<K, V>, k: K): (r: Option<V>)
    requires Valid(c)
    ensures r.None? <==> k !in KeySet(c.entries)
    ensures r.Some? ==> r.value == c.entries[IndexOf(c.entries, k)].value
  {
    Lookup(c.entries, k)
  }

  /**
   `peek_mut`: `peek`, after which the caller writes `write(v)` through the
   returned reference. The value changes in place: no key changes position.
   */
  function PeekMut<K(==), V>(c: LruCache<K, V>, k: K, write: V -> V): (r: Step<K, V, Option<V>>)
    requires Valid(c)
    ensures r.out == Peek(c, k)
    ensures Valid(r.cache) && r.cache.cap == c.cap
    ensures Keys(r.cache.entries) == Keys(c.entries)
    ensures r.out.None? ==> r.cache == c
    ensures r.out.Some? ==>
      r.cache.entries == c.entries[IndexOf(c.entries, k) := Entry(k, write(r.out.value))]
  {
    match Lookup(c.entries, k)
    case None => Step(c, None)
    case Some(v) =>
      var i := IndexOf(c.entries, k);
      var s := c.entries[i := Entry(k, write(v))];
      assert forall j :: 0 <= j < |s| ==> s[j].key == c.entries[j].key;
      Step(LruCache(s, c.cap), Some(v))
  }

  /**
   `peek_last`: the least recently used entry, or `None` exactly when the
   cache is empty; the order is left as it is.
   */
  function PeekLast<K(==), V>(c: LruCache<K, V>): (r: Option<Entry<K, V>>)
    requires Valid(c)
    ensures r.None? <==> IsEmpty(c)
    ensures r.Some? ==> r.value == c.entries[Len(c) - 1]
    ensures r.Some? ==> Lookup(c.entries, r.value.key) == Some(r.value.value)
  {
    if IsEmpty(c) then None
    else
      LookupAt(c.entries, Len(c) - 1);
      Some(Last(c))
  }

  /** `contains`: whether `k` is present; the order is left as it is. */
  function Contains<K(==), V>(c: LruCache<K, V>, k: K): (r: bool)
    requires Valid(c)
    ensures r <==> exists i :: 0 <= i < Len(c) && c.entries[i].key == k
  {
    var v := Lookup(c.entries, k);
    if v.Some? then
      var i := IndexOf(c.entries, k);
      true
    else
      assert forall i :: 0 <= i < Len(c) ==> c.entries[i].key in KeySet(c.entries) by {
        forall i | 0 <= i < Len(c) { InKeySet(c.entries, i); }
      }
      false
  }

  // ---------------------------------------------------------------------------
  // Removal: pop, pop_entry, pop_last
  // ---------------------------------------------------------------------------

  /** Unlinking `k` from the map and the list. */
  function Unlink<K(==), V>(c: LruCache<K, V>, k: K): (r: LruCache<K, V>)
    requires Valid(c)
    ensures Valid(r) && r.cap == c.cap
    ensures KeySet(r.entries) == KeySet(c.entries) - {k}
    ensures k !in KeySet(c.entries) ==> r == c
    ensures k in KeySet(c.entries) ==>
      var i := IndexOf(c.entries, k);
      Len(r) == Len(c) - 1 && r.entries == c.entries[..i] + c.entries[i + 1..]
  {
    WithoutDistinct(c.entries, k);
    if k in KeySet(c.entries) then
      WithoutSplice(c.entries, IndexOf(c.entries, k));
      LruCache(Without(c.entries, k), c.cap)
    else
      WithoutAbsent(c.entries, k);
      LruCache(Without(c.entries, k), c.cap)
  }

  /**
   `pop`: removes `k` and returns its value; `None`, with nothing changed,
   when `k` is absent.
   */
  function Pop<K(==), V>(c: LruCache<K, V>, k: K): (r: Step<K, V, Option<V>>)
    requires Valid(c)
    ensures r.out.None? <==> k !in KeySet(c.entries)
    ensures r.out.Some? ==> r.out.value == c.entries[IndexOf(c.entries, k)].value
    ensures r.cache == Unlink(c, k)
  {
    match Lookup(c.entries, k)
    case None => Step(c, None)
    case Some(v) => Step(Unlink(c, k), Some(v))
  }

  /**
   `pop_entry`: removes `k` and returns its pair; `None`, with nothing changed,
   when `k` is absent.
   */
  function PopEntry<K(==), V>(c: LruCache<K, V>, k: K): (r: Step<K, V, Option<Entry<K, V>>>)
    requires Valid(c)
    ensures r.out.None? <==> k !in KeySet(c.entries)
    ensures r.out.Some? ==> r.out.value == c.entries[IndexOf(c.entries, k)]
    ensures r.cache == Unlink(c, k)
  {
    match Lookup(c.entries, k)
    case None => Step(c, None)
    case Some(v) => Step(Unlink(c, k), Some(Entry(k, v)))
  }

  /**
   `pop_last` (through `detach_last`): removes and returns the least recently
   used entry; `None`, with nothing changed, when the cache is empty.
   */
  function PopLast<K(==), V>(c: LruCache<K, V>): (r: Step<K, V, Option<Entry<K, V>>>)
    requires Valid(c)
    ensures Valid(r.cache) && r.cache.cap == c.cap
    ensures r.out == PeekLast(c)
    ensures r.out.None? ==> r.cache == c
    ensures r.out.Some? ==> r.cache.entries + [r.out.value] == c.entries
    ensures r.out.Some? ==> KeySet(r.cache.entries) == KeySet(c.entries) - {r.out.value.key}
  {
    if IsEmpty(c) then Step(c, None)
    else
      DropLastKeys(c.entries);
      Step(LruCache(c.entries[..Len(c) - 1], c.cap), Some(Last(c)))
  }

  // ---------------------------------------------------------------------------
  // Reordering: promote, demote
  // ---------------------------------------------------------------------------

  /**
   `promote`: a present key becomes the most recently used, the last to be
   evicted; the others keep their relative order. An absent key is a no-op.
   */
  function Promote<K(==), V>(c: LruCache<K, V>, k: K): (r: LruCache<K, V>)
    requires Valid(c)
    ensures Valid(r) && r.cap == c.cap && Len(r) == Len(c)
    ensures k !in KeySet(c.entries) ==> r == c
    ensures k in KeySet(c.entries) ==>
      var i := IndexOf(c.entries, k);
      r.entries[0] == c.entries[i] && r.entries[1..] == c.entries[..i] + c.entries[i + 1..]
  {
    var r := MoveToFront(c, k);
    assert k in KeySet(c.entries) ==> r.entries == [r.entries[0]] + r.entries[1..];
    r
  }

  /**
   `demote`: a present key becomes the least recently used, the first to be
   evicted; the others keep their relative order. An absent key is a no-op.
   */
  function Demote<K(==), V>(c: LruCache<K, V>, k: K): (r: LruCache<K, V>)
    requires Valid(c)
    ensures Valid(r) && r.cap == c.cap && Len(r) == Len(c)
    ensures k !in KeySet(c.entries) ==> r == c
    ensures k in KeySet(c.entries) ==>
      var i := IndexOf(c.entries, k);
      Last(r) == c.entries[i] && r.entries[..Len(r) - 1] == c.entries[..i] + c.entries[i + 1..]
  {
    MoveToBack(c, k)
  }

  // ---------------------------------------------------------------------------
  // Capacity: resize, clear
  // ---------------------------------------------------------------------------

  /**
   `resize`: the same capacity is a no-op. Otherwise least recently used
   entries are popped while there are more than `cap` of them, so the most
   recent ones are kept, and the capacity becomes `cap`.
   */
  method Resize<K(==), V>(c: LruCache<K, V>, cap: Capacity) returns (r: LruCache<K, V>)
    requires Valid(c)
    ensures Valid(r) && r.cap == cap
    ensures Len(r) == if Len(c) <= cap then Len(c) else cap
    ensures r.entries == c.entries[..Len(r)]
    ensures cap == c.cap ==> r == c
  {
    if cap == c.cap {
      return c;
    }
    r := c;
    while Len(r) > cap
      invariant Valid(r) && r.cap == c.cap && Len(r) <= Len(c)
      invariant r.entries == c.entries[..Len(r)]
      invariant Len(r) == Len(c) || Len(r) >= cap
      decreases Len(r)
    {
      var p := PopLast(r);
      r := p.cache;
    }
    r := LruCache(r.entries, cap);
  }

  /** `clear`: pops the least recently used entry until there is none; the capacity stays. */
  method Clear<K(==), V>(c: LruCache<K, V>) returns (r: LruCache<K, V>)
    requires Valid(c)
    ensures Valid(r) && IsEmpty(r) && r.cap == c.cap
  {
    r := c;
    while true
      invariant Valid(r) && r.cap == c.cap
      decreases Len(r)
    {
      var p := PopLast(r);
      if p.out.None? {
        break;
      }
      r := p.cache;
    }
  }
}
