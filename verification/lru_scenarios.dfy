/** The orderings pinned by the unit tests of `lru_cache.rs`, replayed on the model. */
module LruScenarios {
  import opened Maybe
  import opened Entries
  import opened Lru

  // One call at a time, for keys whose position is known.

  lemma PushFresh<K, V>(c: LruCache<K, V>, k: K, v: V)
    requires Valid(c) && k !in Keys(c.entries) && Len(c) < c.cap
    ensures Push(c, k, v) == Step(LruCache([Entry(k, v)] + c.entries, c.cap), None)
    ensures Put(c, k, v) == Step(LruCache([Entry(k, v)] + c.entries, c.cap), None)
  {
    KeySetKeys(c.entries, k);
    WithoutAbsent(c.entries, k);
    var r := Push(c, k, v).cache;
    assert r.entries == [r.entries[0]] + r.entries[1..];
  }

  lemma PutFull<K, V>(c: LruCache<K, V>, k: K, v: V)
    requires Valid(c) && k !in Keys(c.entries) && Len(c) == c.cap
    ensures Put(c, k, v) == Step(LruCache([Entry(k, v)] + c.entries[..Len(c) - 1], c.cap), None)
  {
    KeySetKeys(c.entries, k);
    WithoutAbsent(c.entries, k);
    var r := Put(c, k, v).cache;
    assert r.entries == [r.entries[0]] + r.entries[1..];
  }

  lemma PromoteAt<K, V>(c: LruCache<K, V>, i: nat)
    requires Valid(c) && i < Len(c)
    ensures Promote(c, c.entries[i].key).entries == [c.entries[i]] + c.entries[..i] + c.entries[i + 1..]
  {
    var e := c.entries;
    IndexOfAt(e, i);
    var r := Promote(c, e[i].key);
    assert r.entries[0] == e[i] && r.entries[1..] == e[..i] + e[i + 1..];
    assert r.entries == [e[i]] + (e[..i] + e[i + 1..]);
  }

  lemma DemoteAt<K, V>(c: LruCache<K, V>, i: nat)
    requires Valid(c) && i < Len(c)
    ensures Demote(c, c.entries[i].key).entries == c.entries[..i] + c.entries[i + 1..] + [c.entries[i]]
  {
    IndexOfAt(c.entries, i);
    var r := Demote(c, c.entries[i].key);
    assert r.entries == r.entries[..Len(r) - 1] + [Last(r)];
  }

  lemma PopAt<K, V>(c: LruCache<K, V>, i: nat)
    requires Valid(c) && i < Len(c)
    ensures Pop(c, c.entries[i].key) ==
      Step(LruCache(c.entries[..i] + c.entries[i + 1..], c.cap), Some(c.entries[i].value))
  {
    IndexOfAt(c.entries, i);
  }

  lemma GetAt<K, V>(c: LruCache<K, V>, i: nat)
    requires Valid(c) && i < Len(c)
    ensures Get(c, c.entries[i].key) ==
      Step(Promote(c, c.entries[i].key), Some(c.entries[i].value))
  {
    IndexOfAt(c.entries, i);
  }

  /**
   test_promote_and_demote: pushing 0..4, promoting 1 then 0 and demoting 3
   then 4 makes `pop_last` yield 4, 3, 2, 1, 0: the list runs 0, 1, 2, 3, 4
   from head to tail.
   */
  lemma PromoteAndDemoteScenario(c0: LruCache<int, int>)
    requires Valid(c0) && IsEmpty(c0) && c0.cap == 5
    ensures
      var c := Push(c0, 0, 0).cache;
      var c := Push(c, 1, 1).cache;
      var c := Push(c, 2, 2).cache;
      var c := Push(c, 3, 3).cache;
      var c := Push(c, 4, 4).cache;
      var c := Promote(c, 1);
      var c := Promote(c, 0);
      var c := Demote(c, 3);
      var c := Demote(c, 4);
      c.entries == [Entry(0, 0), Entry(1, 1), Entry(2, 2), Entry(3, 3), Entry(4, 4)]
  {
    PushZeroToFour(c0);
    PromoteAndDemoteMoves(Push(Push(Push(Push(Push(c0, 0, 0).cache, 1, 1).cache, 2, 2).cache, 3, 3).cache, 4, 4).cache);
  }

  lemma PushZeroToFour(c0: LruCache<int, int>)
    requires Valid(c0) && IsEmpty(c0) && c0.cap == 5
    ensures
      var c := Push(c0, 0, 0).cache;
      var c := Push(c, 1, 1).cache;
      var c := Push(c, 2, 2).cache;
      var c := Push(c, 3, 3).cache;
      var c := Push(c, 4, 4).cache;
      Valid(c) && c.entries == [Entry(4, 4), Entry(3, 3), Entry(2, 2), Entry(1, 1), Entry(0, 0)]
  {
    var c1 := Push(c0, 0, 0).cache;
    assert c1.entries == [Entry(0, 0)] by { PushFresh(c0, 0, 0); }
    var c2 := Push(c1, 1, 1).cache;
    assert c2.entries == [Entry(1, 1), Entry(0, 0)] by {
      assert Keys(c1.entries) == [0];
      PushFresh(c1, 1, 1);
    }
    var c3 := Push(c2, 2, 2).cache;
    assert c3.entries == [Entry(2, 2), Entry(1, 1), Entry(0, 0)] by {
      assert Keys(c2.entries) == [1, 0];
      PushFresh(c2, 2, 2);
    }
    var c4 := Push(c3, 3, 3).cache;
    assert c4.entries == [Entry(3, 3), Entry(2, 2), Entry(1, 1), Entry(0, 0)] by {
      assert Keys(c3.entries) == [2, 1, 0];
      PushFresh(c3, 3, 3);
    }
    assert Keys(c4.entries) == [3, 2, 1, 0];
    PushFresh(c4, 4, 4);
  }

  lemma PromoteAndDemoteMoves(c5: LruCache<int, int>)
    requires Valid(c5) && c5.entries == [Entry(4, 4), Entry(3, 3), Entry(2, 2), Entry(1, 1), Entry(0, 0)]
    ensures
      var c := Promote(c5, 1);
      var c := Promote(c, 0);
      var c := Demote(c, 3);
      var c := Demote(c, 4);
      c.entries == [Entry(0, 0), Entry(1, 1), Entry(2, 2), Entry(3, 3), Entry(4, 4)]
  {
    PromoteOne(c5);
    var c6 := Promote(c5, 1);
    PromoteZero(c6);
    var c7 := Promote(c6, 0);
    DemoteThree(c7);
    DemoteFour(Demote(c7, 3));
  }

  lemma PromoteOne(c: LruCache<int, int>)
    requires Valid(c) && c.entries == [Entry(4, 4), Entry(3, 3), Entry(2, 2), Entry(1, 1), Entry(0, 0)]
    ensures Promote(c, 1).entries == [Entry(1, 1), Entry(4, 4), Entry(3, 3), Entry(2, 2), Entry(0, 0)]
  {
    PromoteAt(c, 3);
    assert c.entries[..3] == [Entry(4, 4), Entry(3, 3), Entry(2, 2)];
    assert c.entries[4..] == [Entry(0, 0)];
  }

  lemma PromoteZero(c: LruCache<int, int>)
    requires Valid(c) && c.entries == [Entry(1, 1), Entry(4, 4), Entry(3, 3), Entry(2, 2), Entry(0, 0)]
    ensures Promote(c, 0).entries == [Entry(0, 0), Entry(1, 1), Entry(4, 4), Entry(3, 3), Entry(2, 2)]
  {
    PromoteAt(c, 4);
    assert c.entries[..4] == [Entry(1, 1), Entry(4, 4), Entry(3, 3), Entry(2, 2)];
  }

  lemma DemoteThree(c: LruCache<int, int>)
    requires Valid(c) && c.entries == [Entry(0, 0), Entry(1, 1), Entry(4, 4), Entry(3, 3), Entry(2, 2)]
    ensures Demote(c, 3).entries == [Entry(0, 0), Entry(1, 1), Entry(4, 4), Entry(2, 2), Entry(3, 3)]
  {
    DemoteAt(c, 3);
    assert c.entries[..3] == [Entry(0, 0), Entry(1, 1), Entry(4, 4)];
    assert c.entries[4..] == [Entry(2, 2)];
  }

  lemma DemoteFour(c: LruCache<int, int>)
    requires Valid(c) && c.entries == [Entry(0, 0), Entry(1, 1), Entry(4, 4), Entry(2, 2), Entry(3, 3)]
    ensures Demote(c, 4).entries == [Entry(0, 0), Entry(1, 1), Entry(2, 2), Entry(3, 3), Entry(4, 4)]
  {
    DemoteAt(c, 2);
    assert c.entries[..2] == [Entry(0, 0), Entry(1, 1)];
    assert c.entries[3..] == [Entry(2, 2), Entry(3, 3)];
  }

  /**
   test_put_removes_oldest: with capacity 2, putting a third key evicts the
   least recently used one, and `put` returns `None` for each new key even
   when it evicts.
   */
  lemma PutRemovesOldestScenario(c0: LruCache<string, string>)
    requires Valid(c0) && IsEmpty(c0) && c0.cap == 2
    ensures
      var p1 := Put(c0, "apple", "red");
      var p2 := Put(p1.cache, "banana", "yellow");
      var p3 := Put(p2.cache, "pear", "green");
      && p1.out == None && p2.out == None && p3.out == None
      && Get(p3.cache, "apple").out == None
      && p3.cache.entries == [Entry("pear", "green"), Entry("banana", "yellow")]
  {
    var p1 := Put(c0, "apple", "red");
    PushFresh(c0, "apple", "red");
    assert Keys(p1.cache.entries) == ["apple"];
    var p2 := Put(p1.cache, "banana", "yellow");
    PushFresh(p1.cache, "banana", "yellow");
    assert Keys(p2.cache.entries) == ["banana", "apple"];
    PutFull(p2.cache, "pear", "green");
    var p3 := Put(p2.cache, "pear", "green");
    assert p3.cache.entries == [Entry("pear", "green"), Entry("banana", "yellow")];
    KeySetKeys(p3.cache.entries, "apple");
    assert Keys(p3.cache.entries) == ["pear", "banana"];
  }

  /**
   The rest of test_put_removes_oldest: reading banana then pear reorders
   them, so putting apple evicts banana and putting tomato then evicts pear.
   */
  lemma PutRemovesOldestContinued(c: LruCache<string, string>)
    requires Valid(c) && c.cap == 2
    requires c.entries == [Entry("pear", "green"), Entry("banana", "yellow")]
    ensures
      var g1 := Get(c, "banana");
      var g2 := Get(g1.cache, "pear");
      var p1 := Put(g2.cache, "apple", "green");
      var p2 := Put(p1.cache, "tomato", "red");
      && g1.out == Some("yellow") && g2.out == Some("green")
      && p1.out == None && p2.out == None
      && p2.cache.entries == [Entry("tomato", "red"), Entry("apple", "green")]
  {
    GetAt(c, 1);
    PromoteAt(c, 1);
    var g1 := Get(c, "banana");
    assert g1.cache.entries == [Entry("banana", "yellow"), Entry("pear", "green")];
    GetAt(g1.cache, 1);
    PromoteAt(g1.cache, 1);
    var g2 := Get(g1.cache, "pear");
    assert g2.cache.entries == [Entry("pear", "green"), Entry("banana", "yellow")];
    assert Keys(g2.cache.entries) == ["pear", "banana"];
    PutFull(g2.cache, "apple", "green");
    var p1 := Put(g2.cache, "apple", "green");
    assert p1.cache.entries == [Entry("apple", "green"), Entry("pear", "green")];
    assert Keys(p1.cache.entries) == ["apple", "pear"];
    PutFull(p1.cache, "tomato", "red");
  }

  /**
   test_that_pop_actually_detaches_node: after putting a..e into a cache of
   capacity 5, popping c unlinks it, so putting f evicts nothing and the
   iteration order is f, e, d, b, a.
   */
  lemma PopDetachesScenario(c: LruCache<string, int>)
    requires Valid(c) && c.cap == 5
    requires c.entries == [Entry("e", 5), Entry("d", 4), Entry("c", 3), Entry("b", 2), Entry("a", 1)]
    ensures
      var p := Pop(c, "c");
      var q := Put(p.cache, "f", 6);
      && p.out == Some(3)
      && q.out == None
      && q.cache.entries == [Entry("f", 6), Entry("e", 5), Entry("d", 4), Entry("b", 2), Entry("a", 1)]
  {
    PopAt(c, 2);
    var p := Pop(c, "c");
    assert c.entries[..2] == [Entry("e", 5), Entry("d", 4)];
    assert c.entries[3..] == [Entry("b", 2), Entry("a", 1)];
    assert p.cache.entries == [Entry("e", 5), Entry("d", 4), Entry("b", 2), Entry("a", 1)];
    assert Keys(p.cache.entries) == ["e", "d", "b", "a"];
    PushFresh(p.cache, "f", 6);
  }

  /** The first half of that test: putting a..e into an empty cache of capacity 5. */
  lemma PutFiveScenario(c0: LruCache<string, int>)
    requires Valid(c0) && IsEmpty(c0) && c0.cap == 5
    ensures
      var c := Put(c0, "a", 1).cache;
      var c := Put(c, "b", 2).cache;
      var c := Put(c, "c", 3).cache;
      var c := Put(c, "d", 4).cache;
      var c := Put(c, "e", 5).cache;
      Valid(c) && c.entries == [Entry("e", 5), Entry("d", 4), Entry("c", 3), Entry("b", 2), Entry("a", 1)]
  {
    var c1 := Put(c0, "a", 1).cache;
    assert c1.entries == [Entry("a", 1)] by { PushFresh(c0, "a", 1); }
    var c2 := Put(c1, "b", 2).cache;
    assert c2.entries == [Entry("b", 2), Entry("a", 1)] by {
      assert Keys(c1.entries) == ["a"];
      PushFresh(c1, "b", 2);
    }
    var c3 := Put(c2, "c", 3).cache;
    assert c3.entries == [Entry("c", 3), Entry("b", 2), Entry("a", 1)] by {
      assert Keys(c2.entries) == ["b", "a"];
      PushFresh(c2, "c", 3);
    }
    var c4 := Put(c3, "d", 4).cache;
    assert c4.entries == [Entry("d", 4), Entry("c", 3), Entry("b", 2), Entry("a", 1)] by {
      assert Keys(c3.entries) == ["c", "b", "a"];
      PushFresh(c3, "d", 4);
    }
    assert Keys(c4.entries) == ["d", "c", "b", "a"];
    PushFresh(c4, "e", 5);
  }
}
