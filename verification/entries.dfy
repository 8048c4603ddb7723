/**
 Lists of key/value entries in recency order, the abstract contents of an LRU
 cache. Index 0 is the most recently used entry (the node right after the head
 sentinel of the linked list); the last index is the least recently used one
 (the node right before the tail sentinel).
 */
module Entries {
  import opened Maybe

  datatype Entry<K, V> = Entry(key: K, value: V)

  /** The keys of a list of entries, in list order. */
  function Keys<K, V>(s: seq<Entry<K, V>>): seq<K> {
    seq(|s|, i requires 0 <= i < |s| => s[i].key)
  }

  /** The set of keys present in a list of entries. */
  function KeySet<K, V>(s: seq<Entry<K, V>>): set<K> {
    if |s| == 0 then {} else {s[0].key} + KeySet(s[1..])
  }

  /** No key occurs twice: the list can stand for a map. */
  predicate DistinctKeys<K(==), V>(s: seq<Entry<K, V>>) {
    forall i, j :: 0 <= i < j < |s| ==> s[i].key != s[j].key
  }

  /** The value stored under `k`, looked up front to back. */
  function Lookup<K(==), V>(s: seq<Entry<K, V>>, k: K): (r: Option<V>)
    ensures r.None? <==> k !in KeySet(s)
    ensures r.Some? ==> r.value == s[IndexOf(s, k)].value
  {
    if |s| == 0 then None
    else if s[0].key == k then Some(s[0].value)
    else Lookup(s[1..], k)
  }

  /** The position of `k` in a list that holds it: its first occurrence. */
  function IndexOf<K(==), V>(s: seq<Entry<K, V>>, k: K): (i: nat)
    requires k in KeySet(s)
    ensures i < |s| && s[i].key == k
    ensures forall j :: 0 <= j < i ==> s[j].key != k
  {
    if s[0].key == k then 0 else 1 + IndexOf(s[1..], k)
  }

  /** The list with every entry for `k` unlinked, the others kept in order. */
  function Without<K(==), V>(s: seq<Entry<K, V>>, k: K): (r: seq<Entry<K, V>>)
    ensures KeySet(r) == KeySet(s) - {k}
    ensures |r| <= |s|
  {
    if |s| == 0 then []
    else if s[0].key == k then Without(s[1..], k)
    else
      var t := Without(s[1..], k);
      assert ([s[0]] + t)[1..] == t;
      [s[0]] + t
  }

  /** The map a list of entries stands for; the front-most entry for a key wins. */
  function AsMap<K, V>(s: seq<Entry<K, V>>): (m: map<K, V>)
    ensures m.Keys == KeySet(s)
  {
    if |s| == 0 then map[] else AsMap(s[1..])[s[0].key := s[0].value]
  }

  /** Every key stored at some position is in the key set. */
  lemma {:induction false} InKeySet<K, V>(s: seq<Entry<K, V>>, i: nat)
    requires i < |s|
    ensures s[i].key in KeySet(s)
  {
    if i > 0 {
      InKeySet(s[1..], i - 1);
    }
  }

  /** The key set of a concatenation is the union of the key sets. */
  lemma {:induction false} KeySetAppend<K, V>(s: seq<Entry<K, V>>, t: seq<Entry<K, V>>)
    ensures KeySet(s + t) == KeySet(s) + KeySet(t)
  {
    if |s| > 0 {
      assert (s + t)[1..] == s[1..] + t;
      KeySetAppend(s[1..], t);
    } else {
      assert s + t == t;
    }
  }

  /** Prepending one entry keeps keys distinct exactly when its key is new. */
  lemma DistinctCons<K, V>(e: Entry<K, V>, s: seq<Entry<K, V>>)
    ensures DistinctKeys([e] + s) <==> e.key !in KeySet(s) && DistinctKeys(s)
  {
    var t := [e] + s;
    if e.key in KeySet(s) {
      var i := IndexOf(s, e.key);
      assert t[i + 1].key == t[0].key;
    }
    if DistinctKeys(t) {
      forall i, j | 0 <= i < j < |s| ensures s[i].key != s[j].key {
        assert t[i + 1] == s[i] && t[j + 1] == s[j];
      }
    }
    if e.key !in KeySet(s) && DistinctKeys(s) {
      forall j | 0 < j < |t| ensures t[0].key != t[j].key {
        assert t[j] == s[j - 1];
        InKeySet(s, j - 1);
      }
    }
  }

  /** A key found at position `i` of a distinct-key list occurs nowhere else. */
  lemma OnlyAt<K, V>(s: seq<Entry<K, V>>, i: nat)
    requires DistinctKeys(s) && i < |s|
    ensures s[i].key !in KeySet(s[..i]) && s[i].key !in KeySet(s[i + 1..])
  {
    if s[i].key in KeySet(s[..i]) {
      var j := IndexOf(s[..i], s[i].key);
    }
    if s[i].key in KeySet(s[i + 1..]) {
      var j := IndexOf(s[i + 1..], s[i].key);
    }
  }

  /** In a distinct-key list, looking up the key at position `i` finds the value at `i`. */
  lemma {:induction false} LookupAt<K, V>(s: seq<Entry<K, V>>, i: nat)
    requires DistinctKeys(s) && i < |s|
    ensures Lookup(s, s[i].key) == Some(s[i].value)
  {
    if i > 0 {
      assert s[0].key != s[i].key;
      LookupAt(s[1..], i - 1);
    }
  }

  /** Unlinking a key that is absent changes nothing. */
  lemma {:induction false} WithoutAbsent<K, V>(s: seq<Entry<K, V>>, k: K)
    requires k !in KeySet(s)
    ensures Without(s, k) == s
  {
    if |s| > 0 {
      WithoutAbsent(s[1..], k);
      assert [s[0]] + s[1..] == s;
    }
  }

  /** Unlinking a key distributes over concatenation. */
  lemma {:induction false} WithoutAppend<K, V>(s: seq<Entry<K, V>>, t: seq<Entry<K, V>>, k: K)
    ensures Without(s + t, k) == Without(s, k) + Without(t, k)
  {
    if |s| == 0 {
      assert s + t == t;
    } else {
      assert (s + t)[1..] == s[1..] + t;
      assert (s + t)[0] == s[0];
      WithoutAppend(s[1..], t, k);
    }
  }

  /**
   Unlinking the key at position `i` of a distinct-key list splices that one
   entry out: the entries before and after it keep their relative order.
   */
  lemma WithoutSplice<K, V>(s: seq<Entry<K, V>>, i: nat)
    requires DistinctKeys(s) && i < |s|
    ensures Without(s, s[i].key) == s[..i] + s[i + 1..]
  {
    var k := s[i].key;
    var pre, post := s[..i], s[i + 1..];
    var rest := [s[i]] + post;
    assert rest == s[i..];
    assert s == pre + s[i..];
    OnlyAt(s, i);
    WithoutAbsent(pre, k);
    WithoutHead(s[i], post);
    WithoutAppend(pre, rest, k);
  }

  /** Filtering a key out of a list headed by that key, whose tail lacks it. */
  lemma WithoutHead<K, V>(e: Entry<K, V>, post: seq<Entry<K, V>>)
    requires e.key !in KeySet(post)
    ensures Without([e] + post, e.key) == post
  {
    assert ([e] + post)[1..] == post;
    WithoutAbsent(post, e.key);
  }

  /** Splicing one entry out of a distinct-key list keeps keys distinct and forgets that key. */
  lemma SpliceDistinct<K, V>(s: seq<Entry<K, V>>, i: nat)
    requires DistinctKeys(s) && i < |s|
    ensures DistinctKeys(s[..i] + s[i + 1..])
    ensures KeySet(s[..i] + s[i + 1..]) == KeySet(s) - {s[i].key}
  {
    var t := s[..i] + s[i + 1..];
    forall a, b | 0 <= a < b < |t| ensures t[a].key != t[b].key {
      assert t[a] == s[Skip(a, i)] by { SpliceAt(s, i, a); }
      assert t[b] == s[Skip(b, i)] by { SpliceAt(s, i, b); }
    }
    SpliceKeySet(s, i);
  }

  /** The position in the original list of position `j` once position `i` is spliced out. */
  function Skip(j: nat, i: nat): nat {
    if j < i then j else j + 1
  }

  lemma SpliceAt<T>(s: seq<T>, i: nat, j: nat)
    requires i < |s| && j < |s| - 1
    ensures (s[..i] + s[i + 1..])[j] == s[Skip(j, i)]
  {
  }

  lemma SpliceKeySet<K, V>(s: seq<Entry<K, V>>, i: nat)
    requires DistinctKeys(s) && i < |s|
    ensures KeySet(s[..i] + s[i + 1..]) == KeySet(s) - {s[i].key}
  {
    var pre, post := s[..i], s[i + 1..];
    var rest := [s[i]] + post;
    assert rest == s[i..];
    assert s == pre + rest;
    assert rest[1..] == post;
    KeySetAppend(pre, rest);
    KeySetAppend(pre, post);
    OnlyAt(s, i);
  }

  /** Unlinking keeps keys distinct, and removes exactly one entry when the key is present. */
  lemma WithoutDistinct<K, V>(s: seq<Entry<K, V>>, k: K)
    requires DistinctKeys(s)
    ensures DistinctKeys(Without(s, k))
    ensures |Without(s, k)| == if k in KeySet(s) then |s| - 1 else |s|
  {
    if k in KeySet(s) {
      var i := IndexOf(s, k);
      WithoutSplice(s, i);
      SpliceDistinct(s, i);
    } else {
      WithoutAbsent(s, k);
    }
  }

  /** Every prefix of a distinct-key list has distinct keys drawn from the list. */
  lemma PrefixDistinct<K, V>(s: seq<Entry<K, V>>, n: nat)
    requires DistinctKeys(s) && n <= |s|
    ensures DistinctKeys(s[..n])
    ensures KeySet(s[..n]) <= KeySet(s)
  {
    assert s == s[..n] + s[n..];
    KeySetAppend(s[..n], s[n..]);
  }

  /** Dropping the last entry of a distinct-key list forgets exactly its key. */
  lemma DropLastKeys<K, V>(s: seq<Entry<K, V>>)
    requires DistinctKeys(s) && |s| > 0
    ensures DistinctKeys(s[..|s| - 1])
    ensures KeySet(s[..|s| - 1]) == KeySet(s) - {s[|s| - 1].key}
  {
    assert s[..|s| - 1] == s[..|s| - 1] + s[|s|..];
    SpliceDistinct(s, |s| - 1);
  }

  /** The map view agrees with `Lookup`. */
  lemma {:induction false} AsMapLookup<K, V>(s: seq<Entry<K, V>>, k: K)
    ensures k in AsMap(s) ==> AsMap(s)[k] == Lookup(s, k).value
  {
    if |s| > 0 && s[0].key != k {
      AsMapLookup(s[1..], k);
    }
  }

  /** Unlinking a key removes just that key from the map view. */
  lemma {:induction false} AsMapWithout<K, V>(s: seq<Entry<K, V>>, k: K)
    ensures AsMap(Without(s, k)) == AsMap(s) - {k}
  {
    if |s| > 0 {
      AsMapWithout(s[1..], k);
      if s[0].key != k {
        assert ([s[0]] + Without(s[1..], k))[1..] == Without(s[1..], k);
      }
    }
  }

  /** A key is in the key set exactly when it occurs in the key list. */
  lemma {:induction false} KeySetKeys<K, V>(s: seq<Entry<K, V>>, k: K)
    ensures k in KeySet(s) <==> k in Keys(s)
  {
    if |s| > 0 {
      KeySetKeys(s[1..], k);
      assert Keys(s) == [s[0].key] + Keys(s[1..]);
    }
  }

  /** In a distinct-key list the key at position `i` is first found at `i`. */
  lemma IndexOfAt<K, V>(s: seq<Entry<K, V>>, i: nat)
    requires DistinctKeys(s) && i < |s|
    ensures s[i].key in KeySet(s) && IndexOf(s, s[i].key) == i
  {
    InKeySet(s, i);
  }
}
