/**
 Iteration over an LRU cache. `Iter` walks the list from both ends at once:
 `front` plays the role of `ptr`, `back` of `end`, and `back - front` of the
 `len` counter that stops both directions. `IntoIter` drains the cache with
 `pop_last`, so it yields the least recently used entry first.
 */
module LruIter {
  import opened Maybe
  import opened Entries
  import opened Lru

  datatype Iter<K, V> = Iter(entries: seq<Entry<K, V>>, front: nat, back: nat)

  predicate ValidIter<K, V>(it: Iter<K, V>) {
    it.front <= it.back <= |it.entries|
  }

  /** How many entries are left to yield, from either end. */
  function IterLen<K, V>(it: Iter<K, V>): nat
    requires ValidIter(it)
  {
    it.back - it.front
  }

  /** `iter`: a fresh iterator over every entry, most recently used first. */
  function IterOf<K, V>(c: LruCache<K, V>): (it: Iter<K, V>)
    ensures ValidIter(it) && IterLen(it) == Len(c)
    ensures it.entries == c.entries && it.front == 0
  {
    Iter(c.entries, 0, Len(c))
  }

  /**
   `next`: the entry after the ones already yielded from the front, or `None`
   once the two ends have met.
   */
  function Next<K, V>(it: Iter<K, V>): (r: (Iter<K, V>, Option<Entry<K, V>>))
    requires ValidIter(it)
    ensures ValidIter(r.0) && r.0.entries == it.entries && r.0.back == it.back
    ensures r.1.None? <==> IterLen(it) == 0
    ensures r.1.None? ==> r.0 == it
    ensures r.1.Some? ==> r.1.value == it.entries[it.front] && IterLen(r.0) == IterLen(it) - 1
  {
    if it.back - it.front == 0 then (it, None)
    else (Iter(it.entries, it.front + 1, it.back), Some(it.entries[it.front]))
  }

  /**
   `next_back`: the entry before the ones already yielded from the back, or
   `None` once the two ends have met.
   */
  function NextBack<K, V>(it: Iter<K, V>): (r: (Iter<K, V>, Option<Entry<K, V>>))
    requires ValidIter(it)
    ensures ValidIter(r.0) && r.0.entries == it.entries && r.0.front == it.front
    ensures r.1.None? <==> IterLen(it) == 0
    ensures r.1.None? ==> r.0 == it
    ensures r.1.Some? ==> r.1.value == it.entries[it.back - 1] && IterLen(r.0) == IterLen(it) - 1
  {
    if it.back - it.front == 0 then (it, None)
    else (Iter(it.entries, it.front, it.back - 1), Some(it.entries[it.back - 1]))
  }

  function Reverse<T>(s: seq<T>): (r: seq<T>)
    ensures |r| == |s|
    ensures forall i :: 0 <= i < |s| ==> r[i] == s[|s| - 1 - i]
  {
    if |s| == 0 then [] else Reverse(s[1..]) + [s[0]]
  }

  /**
   Calling `next` until it returns `None` yields exactly `len` entries, most
   recently used first: the list itself.
   */
  method Collect<K, V>(c: LruCache<K, V>) returns (out: seq<Entry<K, V>>)
    ensures out == c.entries
  {
    var it := IterOf(c);
    out := [];
    while true
      invariant ValidIter(it) && it.entries == c.entries && it.back == Len(c)
      invariant out == c.entries[..it.front]
      decreases IterLen(it)
    {
      var step := Next(it);
      if step.1.None? {
        break;
      }
      out := out + [step.1.value];
      it := step.0;
    }
  }

  /** Calling `next_back` until it returns `None` yields the list backwards. */
  method CollectBack<K, V>(c: LruCache<K, V>) returns (out: seq<Entry<K, V>>)
    ensures out == Reverse(c.entries)
  {
    var it := IterOf(c);
    out := [];
    while true
      invariant ValidIter(it) && it.entries == c.entries && it.front == 0
      invariant |out| == Len(c) - it.back
      invariant forall i :: 0 <= i < |out| ==> out[i] == c.entries[Len(c) - 1 - i]
      decreases IterLen(it)
    {
      var step := NextBack(it);
      if step.1.None? {
        break;
      }
      out := out + [step.1.value];
      it := step.0;
    }
  }

  /**
   `into_iter`: repeated `pop_last` yields every entry exactly once, least
   recently used first, and leaves the cache empty.
   */
  method Drain<K(==), V>(c: LruCache<K, V>) returns (out: seq<Entry<K, V>>, rest: LruCache<K, V>)
    requires Valid(c)
    ensures out == Reverse(c.entries)
    ensures Valid(rest) && IsEmpty(rest) && rest.cap == c.cap
  {
    rest := c;
    out := [];
    while true
      invariant Valid(rest) && rest.cap == c.cap && Len(rest) <= Len(c)
      invariant rest.entries == c.entries[..Len(rest)]
      invariant |out| == Len(c) - Len(rest)
      invariant forall i :: 0 <= i < |out| ==> out[i] == c.entries[Len(c) - 1 - i]
      decreases Len(rest)
    {
      var p := PopLast(rest);
      if p.out.None? {
        break;
      }
      out := out + [p.out.value];
      rest := p.cache;
    }
  }
}
