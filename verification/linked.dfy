/**
 The representation `lru_cache.rs` actually uses: a hash map from keys to
 nodes and a doubly linked list of nodes between two sentinel nodes. Raw
 pointers become node identifiers: `HEAD` and `TAIL` name the sentinels, every
 other identifier an allocated entry node, and `unused` is the next identifier
 an allocation hands out. The order of the list is a ghost sequence of
 identifiers that the lemmas carry alongside the structure.
 */
module LinkedLru {
  import opened Maybe
  import opened Entries
  import Lru

  const HEAD: nat := 0
  const TAIL: nat := 1

  /** A sentinel carries no key or value (`MaybeUninit::uninit`); an item does. */
  datatype Node<K, V> = Sigil(prev: nat, next: nat) | Item(key: K, value: V, prev: nat, next: nat)

  datatype Linked<K(==), V> = Linked(index: map<K, nat>, nodes: map<nat, Node<K, V>>, cap: Lru.Capacity, unused: nat)

  /** The identifiers met walking `next` pointers from the head sentinel to the tail sentinel. */
  function Chain(ids: seq<nat>): seq<nat> {
    [HEAD] + ids + [TAIL]
  }

  /** Identifiers of entry nodes: distinct, and never a sentinel. */
  ghost predicate ItemIds(ids: seq<nat>) {
    && (forall i | 0 <= i < |ids| :: ids[i] != HEAD && ids[i] != TAIL)
    && (forall i, j | 0 <= i < j < |ids| :: ids[i] != ids[j])
  }

  /** Every node on the chain exists and each link agrees in both directions. */
  ghost predicate Chained<K, V>(nodes: map<nat, Node<K, V>>, ids: seq<nat>) {
    && ItemIds(ids)
    && (forall j | 0 <= j < |Chain(ids)| :: Chain(ids)[j] in nodes)
    && (forall a, b | 0 <= a && b == a + 1 && b < |Chain(ids)| ::
          nodes[Chain(ids)[a]].next == Chain(ids)[b] && nodes[Chain(ids)[b]].prev == Chain(ids)[a])
  }

  /** The chain of `ItemIds` repeats no identifier. */
  lemma ChainDistinct(ids: seq<nat>)
    requires ItemIds(ids)
    ensures forall a, b | 0 <= a < b < |Chain(ids)| :: Chain(ids)[a] != Chain(ids)[b]
  {
    var ch := Chain(ids);
    forall a, b | 0 <= a < b < |ch| ensures ch[a] != ch[b] {
      if 0 < a && b < |ch| - 1 {
        assert ch[a] == ids[a - 1] && ch[b] == ids[b - 1];
      } else if a == 0 && b < |ch| - 1 {
        assert ch[b] == ids[b - 1];
      } else if 0 < a {
        assert ch[a] == ids[a - 1];
      }
    }
  }

  lemma ChainAt(ids: seq<nat>, j: nat)
    requires j < |ids|
    ensures Chain(ids)[j + 1] == ids[j]
    ensures Chain(ids)[0] == HEAD && Chain(ids)[|ids| + 1] == TAIL
  {
  }

  /** No node is added or freed, and each keeps its kind and key; links and values may differ. */
  ghost predicate SameKeys<K, V>(a: map<nat, Node<K, V>>, b: map<nat, Node<K, V>>) {
    && a.Keys == b.Keys
    && (forall x | x in a :: b[x].Item? == a[x].Item?)
    && (forall x | x in a && a[x].Item? :: b[x].key == a[x].key)
  }

  /** As `SameKeys`, and every value is untouched too: only links may differ. */
  ghost predicate SamePayload<K, V>(a: map<nat, Node<K, V>>, b: map<nat, Node<K, V>>) {
    && SameKeys(a, b)
    && (forall x | x in a && a[x].Item? :: b[x].value == a[x].value)
  }

  // ---------------------------------------------------------------------------
  // detach, attach, attach_last
  // ---------------------------------------------------------------------------

  /** `detach`: the neighbours of `id` are linked to each other; `id` keeps its stale links. */
  function Detach<K, V>(nodes: map<nat, Node<K, V>>, id: nat): map<nat, Node<K, V>>
    requires id in nodes && nodes[id].prev in nodes && nodes[id].next in nodes
  {
    var n := nodes[id];
    var nodes1 := nodes[n.prev := nodes[n.prev].(next := n.next)];
    nodes1[n.next := nodes1[n.next].(prev := n.prev)]
  }

  /** `attach`: `id` is linked in right after the head sentinel. */
  function Attach<K, V>(nodes: map<nat, Node<K, V>>, id: nat): map<nat, Node<K, V>>
    requires id in nodes && HEAD in nodes && nodes[HEAD].next in nodes
  {
    var first := nodes[HEAD].next;
    var nodes1 := nodes[id := nodes[id].(next := first, prev := HEAD)];
    var nodes2 := nodes1[HEAD := nodes1[HEAD].(next := id)];
    nodes2[first := nodes2[first].(prev := id)]
  }

  /** `attach_last`: `id` is linked in right before the tail sentinel. */
  function AttachLast<K, V>(nodes: map<nat, Node<K, V>>, id: nat): map<nat, Node<K, V>>
    requires id in nodes && TAIL in nodes && nodes[TAIL].prev in nodes
  {
    var last := nodes[TAIL].prev;
    var nodes1 := nodes[id := nodes[id].(next := TAIL, prev := last)];
    var nodes2 := nodes1[TAIL := nodes1[TAIL].(prev := id)];
    nodes2[last := nodes2[last].(next := id)]
  }

  /** Detaching the node at position `i` splices it out of the chain. */
  lemma DetachChained<K, V>(nodes: map<nat, Node<K, V>>, ids: seq<nat>, i: nat)
    requires Chained(nodes, ids) && i < |ids|
    ensures ids[i] in nodes && nodes[ids[i]].prev in nodes && nodes[ids[i]].next in nodes
    ensures Chained(Detach(nodes, ids[i]), ids[..i] + ids[i + 1..])
    ensures SamePayload(nodes, Detach(nodes, ids[i]))
  {
    var ch := Chain(ids);
    assert ch[i + 1] == ids[i];
    assert ch[i] in nodes && ch[i + 1] in nodes && ch[i + 2] in nodes;
    assert nodes[ch[i]].next == ch[i + 1] && nodes[ch[i + 1]].prev == ch[i];
    assert nodes[ch[i + 1]].next == ch[i + 2] && nodes[ch[i + 2]].prev == ch[i + 1];
    RemoveMembers(ids, i);
    DetachLinks(nodes, ids, i);
  }

  /** The links of the chain once the node at position `i` is detached. */
  lemma DetachLinks<K, V>(nodes: map<nat, Node<K, V>>, ids: seq<nat>, i: nat)
    requires Chained(nodes, ids) && i < |ids|
    requires ids[i] in nodes && Chain(ids)[i] in nodes && Chain(ids)[i + 2] in nodes
    requires nodes[ids[i]].prev == Chain(ids)[i] && nodes[ids[i]].next == Chain(ids)[i + 2]
    ensures var r := Detach(nodes, ids[i]);
      var ch' := Chain(ids[..i] + ids[i + 1..]);
      && (forall j | 0 <= j < |ch'| :: ch'[j] in r)
      && (forall j | 0 <= j < |ch'| - 1 :: r[ch'[j]].next == ch'[j + 1] && r[ch'[j + 1]].prev == ch'[j])
  {
    var ch := Chain(ids);
    ChainDistinct(ids);
    var p, n := ch[i], ch[i + 2];
    var r := Detach(nodes, ids[i]);
    var ch' := Chain(ids[..i] + ids[i + 1..]);
    assert |ch'| == |ch| - 1;
    assert forall j | 0 <= j < |ch'| :: ch'[j] == if j <= i then ch[j] else ch[j + 1];
    assert r.Keys == nodes.Keys;
    forall j | 0 <= j < |ch'| ensures ch'[j] in r {
      if j <= i {
        assert ch'[j] == ch[j];
      } else {
        assert ch'[j] == ch[j + 1];
      }
    }
    forall j | 0 <= j < |ch'| - 1
      ensures r[ch'[j]].next == ch'[j + 1] && r[ch'[j + 1]].prev == ch'[j]
    {
      if j < i {
        assert ch'[j] == ch[j] && ch'[j + 1] == ch[j + 1];
      } else if j == i {
        assert ch'[j] == p && ch'[j + 1] == n;
      } else {
        assert ch'[j] == ch[j + 1] && ch'[j + 1] == ch[j + 2];
      }
    }
  }

  /** Attaching a node that is off the chain puts it first. */
  lemma AttachChained<K, V>(nodes: map<nat, Node<K, V>>, ids: seq<nat>, id: nat)
    requires Chained(nodes, ids) && id in nodes && id != HEAD && id != TAIL && id !in ids
    ensures HEAD in nodes && nodes[HEAD].next in nodes
    ensures Chained(Attach(nodes, id), [id] + ids)
    ensures SamePayload(nodes, Attach(nodes, id))
  {
    var ch := Chain(ids);
    ChainDistinct(ids);
    assert ch[0] == HEAD && ch[0] in nodes && ch[1] in nodes && nodes[ch[0]].next == ch[1];
    var r := Attach(nodes, id);
    var ids' := [id] + ids;
    var ch' := Chain(ids');
    assert forall j | 1 <= j < |ch'| :: ch'[j] == if j == 1 then id else ch[j - 1];
    assert ch'[0] == HEAD;
    forall j | 0 <= j < |ch'| - 1
      ensures r[ch'[j]].next == ch'[j + 1] && r[ch'[j + 1]].prev == ch'[j]
    {
      if j >= 2 {
        assert ch'[j] == ch[j - 1] && ch'[j + 1] == ch[j];
      }
    }
    assert ItemIds(ids') by {
      assert forall a | 1 <= a < |ids'| :: ids'[a] == ids[a - 1];
    }
  }

  /** Attaching a node that is off the chain at the back puts it last. */
  lemma AttachLastChained<K, V>(nodes: map<nat, Node<K, V>>, ids: seq<nat>, id: nat)
    requires Chained(nodes, ids) && id in nodes && id != HEAD && id != TAIL && id !in ids
    ensures TAIL in nodes && nodes[TAIL].prev in nodes
    ensures Chained(AttachLast(nodes, id), ids + [id])
    ensures SamePayload(nodes, AttachLast(nodes, id))
  {
    var ch := Chain(ids);
    ChainDistinct(ids);
    var m := |ch| - 1;
    assert ch[m] == TAIL && ch[m] in nodes && ch[m - 1] in nodes && nodes[ch[m]].prev == ch[m - 1];
    var r := AttachLast(nodes, id);
    var ids' := ids + [id];
    var ch' := Chain(ids');
    assert forall j | 0 <= j < m :: ch'[j] == ch[j];
    assert ch'[m] == id && ch'[m + 1] == TAIL;
    forall j | 0 <= j < |ch'| - 1
      ensures r[ch'[j]].next == ch'[j + 1] && r[ch'[j + 1]].prev == ch'[j]
    {
      if j < m - 1 {
        assert ch'[j] == ch[j] && ch'[j + 1] == ch[j + 1];
      }
    }
    assert ItemIds(ids') by {
      assert forall a | 0 <= a < |ids| :: ids'[a] == ids[a];
    }
  }

  // ---------------------------------------------------------------------------
  // The representation invariant and the abstraction to `Lru.LruCache`
  // ---------------------------------------------------------------------------

  /** Every identifier in `ids` names an entry node. */
  ghost predicate Items<K, V>(nodes: map<nat, Node<K, V>>, ids: seq<nat>) {
    forall i | 0 <= i < |ids| :: ids[i] in nodes && nodes[ids[i]].Item?
  }

  /** The key/value pairs stored in the nodes `ids`, in that order. */
  ghost function EntriesOf<K, V>(nodes: map<nat, Node<K, V>>, ids: seq<nat>): (s: seq<Entry<K, V>>)
    requires Items(nodes, ids)
    ensures |s| == |ids|
  {
    seq(|ids|, i requires 0 <= i < |ids| => Entry(nodes[ids[i]].key, nodes[ids[i]].value))
  }

  /**
   The structure is well formed and holds its entries in the order `ids`,
   most recently used first:
   - the list runs head sentinel, `ids`, tail sentinel;
   - no node identifier is at or past `unused`;
   - the map sends the key of every listed node to that node, and each of its
     keys to a listed node carrying that very key (`KeyRef` points into the node);
   - `len()` (the map's size) is the length of the list and at most `cap`.
   */
  ghost predicate Represents<K, V>(l: Linked<K, V>, ids: seq<nat>) {
    && Chained(l.nodes, ids)
    && Items(l.nodes, ids)
    && (forall x | x in l.nodes :: x < l.unused)
    && (forall i | 0 <= i < |ids| :: l.nodes[ids[i]].key in l.index && l.index[l.nodes[ids[i]].key] == ids[i])
    && (forall k | k in l.index ::
          l.index[k] in ids && l.index[k] in l.nodes && l.nodes[l.index[k]].Item? && l.nodes[l.index[k]].key == k)
    && |l.index| == |ids|
    && |ids| <= l.cap
  }

  /** The cache a well-formed structure stands for. */
  ghost function View<K, V>(l: Linked<K, V>, ids: seq<nat>): Lru.LruCache<K, V>
    requires Items(l.nodes, ids)
  {
    Lru.LruCache(EntriesOf(l.nodes, ids), l.cap)
  }

  /** What a well-formed structure stands for is a valid cache. */
  lemma RepresentsValid<K, V>(l: Linked<K, V>, ids: seq<nat>)
    requires Represents(l, ids)
    ensures Lru.Valid(View(l, ids))
  {
    var s := EntriesOf(l.nodes, ids);
    forall i, j | 0 <= i < j < |s| ensures s[i].key != s[j].key {
      assert l.index[s[i].key] == ids[i] && l.index[s[j].key] == ids[j];
    }
  }

  /** The hash map answers membership and position exactly as the list does. */
  lemma IndexLookup<K, V>(l: Linked<K, V>, ids: seq<nat>, k: K)
    requires Represents(l, ids)
    ensures k in l.index <==> k in KeySet(View(l, ids).entries)
    ensures k in l.index ==> l.index[k] == ids[IndexOf(View(l, ids).entries, k)]
  {
    var s := EntriesOf(l.nodes, ids);
    KeySetKeys(s, k);
    if k in l.index {
      var i :| 0 <= i < |ids| && ids[i] == l.index[k];
      assert l.nodes[ids[i]].key == k;
      assert s[i].key == k;
      assert Keys(s)[i] == k;
      var j := IndexOf(s, k);
      assert l.index[s[j].key] == ids[j];
    }
  }

  lemma IndexLookupAll<K, V>(l: Linked<K, V>, ids: seq<nat>)
    requires Represents(l, ids)
    ensures forall k :: k in l.index <==> k in KeySet(View(l, ids).entries)
  {
    forall k ensures k in l.index <==> k in KeySet(View(l, ids).entries) {
      IndexLookup(l, ids, k);
    }
  }

  // ---------------------------------------------------------------------------
  // new, unbounded
  // ---------------------------------------------------------------------------

  /**
   `construct`: both sentinels, linked to each other, and an empty map. A null
   link of a sentinel is never followed, so the sentinel's own identifier stands in.
   */
  function Construct<K, V>(cap: Lru.Capacity): Linked<K, V> {
    Linked(map[], map[HEAD := Sigil(HEAD, TAIL), TAIL := Sigil(HEAD, TAIL)], cap, 2)
  }

  function New<K, V>(cap: Lru.Capacity): (l: Linked<K, V>)
    ensures Represents(l, []) && View(l, []) == Lru.New(cap)
  {
    var l := Construct(cap);
    assert Chain([]) == [HEAD, TAIL];
    l
  }

  function Unbounded<K, V>(): (l: Linked<K, V>)
    ensures Represents(l, []) && View(l, []) == Lru.Unbounded()
  {
    New(Lru.USIZE_MAX)
  }

  // ---------------------------------------------------------------------------
  // Sequence facts used below, proved once outside any structure's context
  // ---------------------------------------------------------------------------

  lemma PrefixAll<T>(s: seq<T>)
    ensures s[..|s|] == s
  {
  }

  lemma PrefixOfPrefix<T>(s: seq<T>, a: nat, b: nat)
    requires b <= a <= |s|
    ensures s[..a][..b] == s[..b]
  {
  }

  lemma DropLast<T>(s: seq<T>)
    requires |s| > 0
    ensures s[..|s| - 1] + s[|s|..] == s[..|s| - 1]
  {
  }

  lemma ConsParts<T>(x: T, s: seq<T>, y: T)
    ensures ([x] + s)[0] == x && ([x] + s)[1..] == s
    ensures ([x] + s)[0 := y] == [y] + s
    ensures forall j | 1 <= j < |s| + 1 :: ([x] + s)[j] == s[j - 1]
  {
  }

  lemma SpliceParts<T>(x: T, a: seq<T>, b: seq<T>, y: T)
    ensures ([x] + a + b)[0] == x && ([x] + a + b)[1..] == a + b
    ensures ([x] + a + b)[0 := y] == [y] + (a + b)
  {
  }

  // ---------------------------------------------------------------------------
  // Orders of node identifiers after a node moves
  // ---------------------------------------------------------------------------

  /** Where `id` sits in `ids`. */
  ghost function Pos(ids: seq<nat>, id: nat): (i: nat)
    requires id in ids
    ensures i < |ids| && ids[i] == id
  {
    if ids[0] == id then 0 else 1 + Pos(ids[1..], id)
  }

  lemma PosAt(ids: seq<nat>, i: nat)
    requires ItemIds(ids) && i < |ids|
    ensures Pos(ids, ids[i]) == i
  {
  }

  /** The node at `i` taken out. */
  ghost function Remove(ids: seq<nat>, i: nat): seq<nat>
    requires i < |ids|
  {
    ids[..i] + ids[i + 1..]
  }

  /** The node at `i` moved to the front. */
  ghost function Front(ids: seq<nat>, i: nat): seq<nat>
    requires i < |ids|
  {
    [ids[i]] + Remove(ids, i)
  }

  /** The node at `i` moved to the back. */
  ghost function Back(ids: seq<nat>, i: nat): seq<nat>
    requires i < |ids|
  {
    Remove(ids, i) + [ids[i]]
  }

  lemma RemoveMembers(ids: seq<nat>, i: nat)
    requires ItemIds(ids) && i < |ids|
    ensures ItemIds(Remove(ids, i)) && |Remove(ids, i)| == |ids| - 1
    ensures forall x :: x in Remove(ids, i) <==> x in ids && x != ids[i]
  {
    var r := Remove(ids, i);
    assert forall a | 0 <= a < |r| :: r[a] == if a < i then ids[a] else ids[a + 1];
    forall x | x in ids && x != ids[i] ensures x in r {
      var a :| 0 <= a < |ids| && ids[a] == x;
      if a < i {
        assert r[a] == x;
      } else {
        assert r[a - 1] == x;
      }
    }
  }

  /** The entries of the nodes after a splice are the same splice of the entries. */
  lemma EntriesSplice<K, V>(nodes: map<nat, Node<K, V>>, ids: seq<nat>, i: nat)
    requires Items(nodes, ids) && i < |ids|
    ensures Items(nodes, Remove(ids, i)) && Items(nodes, Front(ids, i)) && Items(nodes, Back(ids, i))
    ensures var e := EntriesOf(nodes, ids);
      && EntriesOf(nodes, Remove(ids, i)) == e[..i] + e[i + 1..]
      && EntriesOf(nodes, Front(ids, i)) == [e[i]] + e[..i] + e[i + 1..]
      && EntriesOf(nodes, Back(ids, i)) == e[..i] + e[i + 1..] + [e[i]]
  {
    var e := EntriesOf(nodes, ids);
    var r := Remove(ids, i);
    assert forall a | 0 <= a < |r| :: r[a] == if a < i then ids[a] else ids[a + 1];
    assert Items(nodes, r);
    assert EntriesOf(nodes, r) == e[..i] + e[i + 1..];
    var f := Front(ids, i);
    assert forall a | 1 <= a < |f| :: f[a] == r[a - 1];
    assert Items(nodes, f);
    assert EntriesOf(nodes, f) == [e[i]] + e[..i] + e[i + 1..];
    var b := Back(ids, i);
    assert forall a | 0 <= a < |r| :: b[a] == r[a];
    assert Items(nodes, b);
    assert EntriesOf(nodes, b) == e[..i] + e[i + 1..] + [e[i]];
  }

  /** Relinking leaves every entry as it was. */
  lemma EntriesSamePayload<K, V>(a: map<nat, Node<K, V>>, b: map<nat, Node<K, V>>, ids: seq<nat>)
    requires Items(a, ids) && SamePayload(a, b)
    ensures Items(b, ids) && EntriesOf(b, ids) == EntriesOf(a, ids)
  {
  }

  /** Re-linking the same nodes in another order, or rewriting values, keeps the structure well formed. */
  lemma Reordered<K, V>(l: Linked<K, V>, ids: seq<nat>, nodes: map<nat, Node<K, V>>, ids': seq<nat>)
    requires Represents(l, ids) && Chained(nodes, ids') && SameKeys(l.nodes, nodes)
    requires |ids'| == |ids| && forall x :: x in ids' <==> x in ids
    ensures Represents(l.(nodes := nodes), ids')
  {
    var l' := l.(nodes := nodes);
    forall j | 0 <= j < |ids'| ensures ids'[j] in nodes && nodes[ids'[j]].Item? {
      assert ids'[j] in ids' && ids'[j] in ids;
      var a :| 0 <= a < |ids| && ids[a] == ids'[j];
    }
    forall j | 0 <= j < |ids'|
      ensures nodes[ids'[j]].key in l.index && l.index[nodes[ids'[j]].key] == ids'[j]
    {
      assert ids'[j] in ids' && ids'[j] in ids;
      var a :| 0 <= a < |ids| && ids[a] == ids'[j];
    }
  }

  // ---------------------------------------------------------------------------
  // The shared moves: detach then attach, detach then attach_last
  // ---------------------------------------------------------------------------

  /** `detach` followed by `attach`: the node `id` moves to the front. */
  function Relink<K, V>(nodes: map<nat, Node<K, V>>, id: nat, ghost ids: seq<nat>): (r: map<nat, Node<K, V>>)
    requires Chained(nodes, ids) && id in ids
    ensures Chained(r, Front(ids, Pos(ids, id))) && SamePayload(nodes, r)
  {
    var i := Pos(ids, id);
    DetachChained(nodes, ids, i);
    RemoveMembers(ids, i);
    AttachChained(Detach(nodes, id), Remove(ids, i), id);
    Attach(Detach(nodes, id), id)
  }

  /** `detach` followed by `attach_last`: the node `id` moves to the back. */
  function RelinkLast<K, V>(nodes: map<nat, Node<K, V>>, id: nat, ghost ids: seq<nat>): (r: map<nat, Node<K, V>>)
    requires Chained(nodes, ids) && id in ids
    ensures Chained(r, Back(ids, Pos(ids, id))) && SamePayload(nodes, r)
  {
    var i := Pos(ids, id);
    DetachChained(nodes, ids, i);
    RemoveMembers(ids, i);
    AttachLastChained(Detach(nodes, id), Remove(ids, i), id);
    AttachLast(Detach(nodes, id), id)
  }

  /** A front or back move keeps the same nodes. */
  lemma MovedMembers(ids: seq<nat>, i: nat)
    requires ItemIds(ids) && i < |ids|
    ensures |Front(ids, i)| == |ids| && forall x :: x in Front(ids, i) <==> x in ids
    ensures |Back(ids, i)| == |ids| && forall x :: x in Back(ids, i) <==> x in ids
  {
    RemoveMembers(ids, i);
  }

  /** Writing through the reference to a node's value. */
  function SetValue<K, V>(nodes: map<nat, Node<K, V>>, id: nat, v: V): (r: map<nat, Node<K, V>>)
    requires id in nodes && nodes[id].Item?
    ensures r.Keys == nodes.Keys
  {
    nodes[id := nodes[id].(value := v)]
  }

  /** A value write keeps every link and every key and changes exactly one entry. */
  lemma SetValueRepresents<K, V>(l: Linked<K, V>, ids: seq<nat>, id: nat, v: V)
    requires Represents(l, ids) && id in ids
    ensures Represents(l.(nodes := SetValue(l.nodes, id, v)), ids)
    ensures var e := EntriesOf(l.nodes, ids);
      var i := Pos(ids, id);
      EntriesOf(SetValue(l.nodes, id, v), ids) == e[i := Entry(e[i].key, v)]
  {
    var r := SetValue(l.nodes, id, v);
    SameLinksChained(l.nodes, r, ids);
    assert SameKeys(l.nodes, r);
    Reordered(l, ids, r, ids);
    EntriesWritten(l.nodes, ids, Pos(ids, id), v);
  }

  /** Writing the value of the node at `i` rewrites exactly the entry at `i`. */
  lemma EntriesWritten<K, V>(nodes: map<nat, Node<K, V>>, ids: seq<nat>, i: nat, v: V)
    requires Items(nodes, ids) && ItemIds(ids) && i < |ids|
    ensures var r := SetValue(nodes, ids[i], v);
      var e := EntriesOf(nodes, ids);
      Items(r, ids) && EntriesOf(r, ids) == e[i := Entry(e[i].key, v)]
  {
  }

  /** The sentinels' inner links name the first and the last listed node. */
  lemma Ends<K, V>(l: Linked<K, V>, ids: seq<nat>)
    requires Represents(l, ids)
    ensures HEAD in l.nodes && TAIL in l.nodes
    ensures l.nodes[HEAD].next == if |ids| == 0 then TAIL else ids[0]
    ensures l.nodes[TAIL].prev == if |ids| == 0 then HEAD else ids[|ids| - 1]
  {
    var ch := Chain(ids);
    assert ch[0] == HEAD && ch[|ch| - 1] == TAIL && ch[1] in l.nodes && ch[|ch| - 2] in l.nodes;
    assert l.nodes[ch[0]].next == ch[1] && l.nodes[ch[|ch| - 1]].prev == ch[|ch| - 2];
  }

  // ---------------------------------------------------------------------------
  // Lookups that do not reorder: peek, peek_last, contains
  // ---------------------------------------------------------------------------

  /** `peek`: the map's node for `k`, read in place. */
  function Peek<K, V>(l: Linked<K, V>, ghost ids: seq<nat>, k: K): (r: Option<V>)
    requires Represents(l, ids)
    ensures Lru.Valid(View(l, ids)) && r == Lru.Peek(View(l, ids), k)
  {
    RepresentsValid(l, ids);
    IndexLookup(l, ids, k);
    if k in l.index then Some(l.nodes[l.index[k]].value) else None
  }

  /** `peek_last`: the node before the tail sentinel, unless the map is empty. */
  function PeekLast<K, V>(l: Linked<K, V>, ghost ids: seq<nat>): (r: Option<Entry<K, V>>)
    requires Represents(l, ids)
    ensures Lru.Valid(View(l, ids)) && r == Lru.PeekLast(View(l, ids))
  {
    RepresentsValid(l, ids);
    Ends(l, ids);
    if |l.index| == 0 then None
    else
      var node := l.nodes[l.nodes[TAIL].prev];
      Some(Entry(node.key, node.value))
  }

  /** `contains`: a map lookup alone. */
  function Contains<K, V>(l: Linked<K, V>, ghost ids: seq<nat>, k: K): (r: bool)
    requires Represents(l, ids)
    ensures Lru.Valid(View(l, ids)) && r == Lru.Contains(View(l, ids), k)
  {
    RepresentsValid(l, ids);
    IndexLookup(l, ids, k);
    k in l.index
  }

  // ---------------------------------------------------------------------------
  // Moves: promote, demote, get, get_mut, peek_mut
  // ---------------------------------------------------------------------------

  /** Detaching and attaching the node at position `i` moves its entry to the front. */
  lemma RelinkRepresents<K, V>(l: Linked<K, V>, ids: seq<nat>, id: nat)
    requires Represents(l, ids) && id in ids
    ensures var l' := l.(nodes := Relink(l.nodes, id, ids));
      var e := EntriesOf(l.nodes, ids);
      var i := Pos(ids, id);
      && Represents(l', Front(ids, Pos(ids, id)))
      && EntriesOf(l'.nodes, Front(ids, Pos(ids, id))) == [e[i]] + e[..i] + e[i + 1..]
  {
    var i := Pos(ids, id);
    MovedMembers(ids, i);
    var nodes := Relink(l.nodes, id, ids);
    Reordered(l, ids, nodes, Front(ids, i));
    EntriesSplice(l.nodes, ids, i);
    EntriesSamePayload(l.nodes, nodes, Front(ids, i));
  }

  /** Detaching and attaching at the back the node at position `i` moves its entry to the back. */
  lemma RelinkLastRepresents<K, V>(l: Linked<K, V>, ids: seq<nat>, id: nat)
    requires Represents(l, ids) && id in ids
    ensures var l' := l.(nodes := RelinkLast(l.nodes, id, ids));
      var e := EntriesOf(l.nodes, ids);
      var i := Pos(ids, id);
      && Represents(l', Back(ids, Pos(ids, id)))
      && EntriesOf(l'.nodes, Back(ids, Pos(ids, id))) == e[..i] + e[i + 1..] + [e[i]]
  {
    var i := Pos(ids, id);
    MovedMembers(ids, i);
    var nodes := RelinkLast(l.nodes, id, ids);
    Reordered(l, ids, nodes, Back(ids, i));
    EntriesSplice(l.nodes, ids, i);
    EntriesSamePayload(l.nodes, nodes, Back(ids, i));
  }

  /** The position of a present key's node is the position of its entry. */
  lemma KeyPos<K, V>(l: Linked<K, V>, ids: seq<nat>, k: K)
    requires Represents(l, ids) && k in l.index
    ensures Lru.Valid(View(l, ids)) && k in KeySet(View(l, ids).entries)
    ensures Pos(ids, l.index[k]) == IndexOf(View(l, ids).entries, k)
  {
    RepresentsValid(l, ids);
    IndexLookup(l, ids, k);
    PosAt(ids, IndexOf(View(l, ids).entries, k));
  }

  /** Detaching and attaching the node of a present key is `MoveToFront` on the list. */
  lemma Promoted<K, V>(l: Linked<K, V>, ids: seq<nat>, k: K)
    requires Represents(l, ids) && k in l.index
    ensures Lru.Valid(View(l, ids))
    ensures var l' := l.(nodes := Relink(l.nodes, l.index[k], ids));
      var ids' := Front(ids, Pos(ids, l.index[k]));
      Represents(l', ids') && View(l', ids') == Lru.MoveToFront(View(l, ids), k)
  {
    KeyPos(l, ids, k);
    RelinkRepresents(l, ids, l.index[k]);
    MovedFront(View(l, ids), k);
  }

  /** Detaching and attaching at the back the node of a present key is `MoveToBack` on the list. */
  lemma Demoted<K, V>(l: Linked<K, V>, ids: seq<nat>, k: K)
    requires Represents(l, ids) && k in l.index
    ensures Lru.Valid(View(l, ids))
    ensures var l' := l.(nodes := RelinkLast(l.nodes, l.index[k], ids));
      var ids' := Back(ids, Pos(ids, l.index[k]));
      Items(l'.nodes, ids') && View(l', ids') == Lru.MoveToBack(View(l, ids), k)
  {
    KeyPos(l, ids, k);
    RelinkLastRepresents(l, ids, l.index[k]);
    MovedBack(View(l, ids), k);
  }

  /** `Lru.MoveToFront` of a present key, as one equation. */
  lemma MovedFront<K, V>(c: Lru.LruCache<K, V>, k: K)
    requires Lru.Valid(c) && k in KeySet(c.entries)
    ensures var e, i := c.entries, IndexOf(c.entries, k);
      Lru.MoveToFront(c, k) == Lru.LruCache([e[i]] + e[..i] + e[i + 1..], c.cap)
  {
  }

  /** `Lru.MoveToBack` of a present key, as one equation. */
  lemma MovedBack<K, V>(c: Lru.LruCache<K, V>, k: K)
    requires Lru.Valid(c) && k in KeySet(c.entries)
    ensures var e, i := c.entries, IndexOf(c.entries, k);
      Lru.MoveToBack(c, k) == Lru.LruCache(e[..i] + e[i + 1..] + [e[i]], c.cap)
  {
  }

  /** `promote`. */
  function Promote<K, V>(l: Linked<K, V>, ghost ids: seq<nat>, k: K): Linked<K, V>
    requires Represents(l, ids)
  {
    if k in l.index then l.(nodes := Relink(l.nodes, l.index[k], ids)) else l
  }

  lemma PromoteRefines<K, V>(l: Linked<K, V>, ids: seq<nat>, k: K) returns (ids': seq<nat>)
    requires Represents(l, ids)
    ensures Lru.Valid(View(l, ids))
    ensures Represents(Promote(l, ids, k), ids')
    ensures View(Promote(l, ids, k), ids') == Lru.Promote(View(l, ids), k)
  {
    RepresentsValid(l, ids);
    IndexLookup(l, ids, k);
    if k in l.index {
      Promoted(l, ids, k);
      ids' := Front(ids, Pos(ids, l.index[k]));
    } else {
      ids' := ids;
    }
  }

  /** `demote`. */
  function Demote<K, V>(l: Linked<K, V>, ghost ids: seq<nat>, k: K): Linked<K, V>
    requires Represents(l, ids)
  {
    if k in l.index then l.(nodes := RelinkLast(l.nodes, l.index[k], ids)) else l
  }

  lemma DemoteRefines<K, V>(l: Linked<K, V>, ids: seq<nat>, k: K) returns (ids': seq<nat>)
    requires Represents(l, ids)
    ensures Lru.Valid(View(l, ids))
    ensures Represents(Demote(l, ids, k), ids')
    ensures View(Demote(l, ids, k), ids') == Lru.Demote(View(l, ids), k)
  {
    RepresentsValid(l, ids);
    IndexLookup(l, ids, k);
    if k in l.index {
      RelinkLastRepresents(l, ids, l.index[k]);
      Demoted(l, ids, k);
      ids' := Back(ids, Pos(ids, l.index[k]));
    } else {
      ids' := ids;
    }
  }

  datatype LStep<K(==), V, R> = LStep(list: Linked<K, V>, out: R)

  /** `get`: detach and attach the node, then read its value. */
  function Get<K, V>(l: Linked<K, V>, ghost ids: seq<nat>, k: K): LStep<K, V, Option<V>>
    requires Represents(l, ids)
  {
    if k in l.index then
      var id := l.index[k];
      var nodes := Relink(l.nodes, id, ids);
      LStep(l.(nodes := nodes), Some(nodes[id].value))
    else
      LStep(l, None)
  }

  lemma GetRefines<K, V>(l: Linked<K, V>, ids: seq<nat>, k: K) returns (ids': seq<nat>)
    requires Represents(l, ids)
    ensures Lru.Valid(View(l, ids))
    ensures Represents(Get(l, ids, k).list, ids')
    ensures View(Get(l, ids, k).list, ids') == Lru.Get(View(l, ids), k).cache
    ensures Get(l, ids, k).out == Lru.Get(View(l, ids), k).out
  {
    RepresentsValid(l, ids);
    IndexLookup(l, ids, k);
    if k in l.index {
      Promoted(l, ids, k);
      ids' := Front(ids, Pos(ids, l.index[k]));
    } else {
      ids' := ids;
    }
  }

  /** `get_mut`: `get`, then the caller writes `write(v)` through the returned reference. */
  function GetMut<K, V>(l: Linked<K, V>, ghost ids: seq<nat>, k: K, write: V -> V): LStep<K, V, Option<V>>
    requires Represents(l, ids)
  {
    if k in l.index then
      var id := l.index[k];
      var nodes := Relink(l.nodes, id, ids);
      var v := nodes[id].value;
      LStep(l.(nodes := SetValue(nodes, id, write(v))), Some(v))
    else
      LStep(l, None)
  }

  /** Moving the node of `k` to the front and then overwriting its value. */
  lemma RelinkThenWrite<K, V>(l: Linked<K, V>, ids: seq<nat>, k: K, w: V)
    requires Represents(l, ids) && k in l.index
    ensures Lru.Valid(View(l, ids)) && k in KeySet(View(l, ids).entries)
    ensures var id := l.index[k];
      var nodes := Relink(l.nodes, id, ids);
      var l' := l.(nodes := SetValue(nodes, id, w));
      var ids' := Front(ids, Pos(ids, id));
      Represents(l', ids') && View(l', ids').entries == [Entry(k, w)] + Without(View(l, ids).entries, k)
  {
    var e := EntriesOf(l.nodes, ids);
    KeyPos(l, ids, k);
    var i := IndexOf(e, k);
    var id := l.index[k];
    RelinkRepresents(l, ids, id);
    var l1 := l.(nodes := Relink(l.nodes, id, ids));
    var ids' := Front(ids, i);
    var e1 := EntriesOf(l1.nodes, ids');
    assert e1 == [e[i]] + e[..i] + e[i + 1..];
    assert ids'[0] == id;
    PosAt(ids', 0);
    SetValueRepresents(l1, ids', id, w);
    SpliceParts(e[i], e[..i], e[i + 1..], Entry(k, w));
    assert e1[0] == e[i] && e[i].key == k;
    var e2 := EntriesOf(SetValue(l1.nodes, id, w), ids');
    assert e2 == e1[0 := Entry(k, w)];
    assert e2 == [Entry(k, w)] + (e[..i] + e[i + 1..]);
    WithoutSplice(e, i);
  }

  lemma GetMutRefines<K, V>(l: Linked<K, V>, ids: seq<nat>, k: K, write: V -> V) returns (ids': seq<nat>)
    requires Represents(l, ids)
    ensures Lru.Valid(View(l, ids))
    ensures Represents(GetMut(l, ids, k, write).list, ids')
    ensures View(GetMut(l, ids, k, write).list, ids') == Lru.GetMut(View(l, ids), k, write).cache
    ensures GetMut(l, ids, k, write).out == Lru.GetMut(View(l, ids), k, write).out
  {
    var c := View(l, ids);
    RepresentsValid(l, ids);
    IndexLookup(l, ids, k);
    if k in l.index {
      var i := IndexOf(c.entries, k);
      var id := l.index[k];
      var v := c.entries[i].value;
      assert Relink(l.nodes, id, ids)[id].value == v;
      RelinkThenWrite(l, ids, k, write(v));
      ids' := Front(ids, i);
      var g := Lru.Get(c, k);
      assert g.out == Some(v);
      assert Lru.GetMut(c, k, write).cache == Lru.LruCache([Entry(k, write(v))] + Without(c.entries, k), c.cap);
    } else {
      ids' := ids;
    }
  }

  /** `peek_mut`: the caller writes `write(v)` through a reference to the node's value, in place. */
  function PeekMut<K, V>(l: Linked<K, V>, ghost ids: seq<nat>, k: K, write: V -> V): LStep<K, V, Option<V>>
    requires Represents(l, ids)
  {
    if k in l.index then
      var id := l.index[k];
      var v := l.nodes[id].value;
      LStep(l.(nodes := SetValue(l.nodes, id, write(v))), Some(v))
    else
      LStep(l, None)
  }

  lemma PeekMutRefines<K, V>(l: Linked<K, V>, ids: seq<nat>, k: K, write: V -> V)
    requires Represents(l, ids)
    ensures Lru.Valid(View(l, ids))
    ensures Represents(PeekMut(l, ids, k, write).list, ids)
    ensures View(PeekMut(l, ids, k, write).list, ids) == Lru.PeekMut(View(l, ids), k, write).cache
    ensures PeekMut(l, ids, k, write).out == Lru.PeekMut(View(l, ids), k, write).out
  {
    var c := View(l, ids);
    RepresentsValid(l, ids);
    IndexLookup(l, ids, k);
    if k in l.index {
      var i := IndexOf(c.entries, k);
      SetValueRepresents(l, ids, l.index[k], write(c.entries[i].value));
      PosAt(ids, i);
    }
  }

  // ---------------------------------------------------------------------------
  // Insertion: replace_or_create_node, capturing_put, put, push
  // ---------------------------------------------------------------------------

  /** Changing anything but the links of existing nodes keeps the chain. */
  lemma SameLinksChained<K, V>(a: map<nat, Node<K, V>>, b: map<nat, Node<K, V>>, ids: seq<nat>)
    requires Chained(a, ids)
    requires forall x | x in a :: x in b && b[x].prev == a[x].prev && b[x].next == a[x].next
    ensures Chained(b, ids)
  {
    var ch := Chain(ids);
    forall j | 0 <= j < |ch| - 1 ensures b[ch[j]].next == ch[j + 1] && b[ch[j + 1]].prev == ch[j] {
    }
  }

  /** The nodes `replace_or_create_node` keeps listed: all but the last when the map is full. */
  ghost function Kept<K, V>(l: Linked<K, V>, ids: seq<nat>): seq<nat> {
    if |l.index| == l.cap && |ids| > 0 then ids[..|ids| - 1] else ids
  }

  /** What `replace_or_create_node` hands back: the evicted pair, if any, and the node to attach. */
  datatype Room<K(==), V> = Room(list: Linked<K, V>, replaced: Option<Entry<K, V>>, node: nat)

  /**
   `replace_or_create_node`: when the map is full, the node before the tail
   sentinel is recycled; otherwise a new node is allocated. Either way the node
   holds the new key and value and is not yet listed.
   */
  function ReplaceOrCreateNode<K, V>(l: Linked<K, V>, ghost ids: seq<nat>, k: K, v: V): (r: Room<K, V>)
    requires Represents(l, ids)
    ensures Represents(r.list, Kept(l, ids)) && r.list.cap == l.cap && |Kept(l, ids)| < l.cap
    ensures r.node in r.list.nodes && r.node != HEAD && r.node != TAIL && r.node !in Kept(l, ids)
    ensures r.list.nodes[r.node].Item? && r.list.nodes[r.node].key == k && r.list.nodes[r.node].value == v
    ensures k !in l.index ==> k !in r.list.index
  {
    if |l.index| == l.cap then
      Evicted(l, ids, k, v);
      Recycle(l, ids, k, v)
    else
      Allocated(l, ids, k, v);
      Allocate(l, k, v)
  }

  /**
   The full case: the node before the tail sentinel leaves the map, its old pair
   is read out and replaced by the new one, and it is detached.
   */
  function Recycle<K, V>(l: Linked<K, V>, ghost ids: seq<nat>, k: K, v: V): (r: Room<K, V>)
    requires Represents(l, ids) && |l.index| == l.cap
    ensures |ids| > 0 && r.node == ids[|ids| - 1] && r.node in l.nodes && l.nodes[r.node].Item?
    ensures r.list.cap == l.cap && r.list.unused == l.unused && r.list.nodes.Keys == l.nodes.Keys
    ensures r.list.nodes[r.node].Item? && r.list.nodes[r.node].key == k && r.list.nodes[r.node].value == v
    ensures r.replaced == Some(Entry(l.nodes[r.node].key, l.nodes[r.node].value))
    ensures r.list.index == l.index - {l.nodes[r.node].key}
    ensures Chained(r.list.nodes, ids[..|ids| - 1])
    ensures forall x | x in l.nodes && x != r.node :: r.list.nodes[x].Item? == l.nodes[x].Item?
    ensures forall x | x in l.nodes && x != r.node && l.nodes[x].Item? ::
      r.list.nodes[x].key == l.nodes[x].key && r.list.nodes[x].value == l.nodes[x].value
  {
    Ends(l, ids);
    var id := l.nodes[TAIL].prev;
    var prev := l.nodes[id];
    var nodes := l.nodes[id := prev.(key := k, value := v)];
    SameLinksChained(l.nodes, nodes, ids);
    DetachChained(nodes, ids, |ids| - 1);
    assert Remove(ids, |ids| - 1) == ids[..|ids| - 1];
    Room(l.(index := l.index - {prev.key}, nodes := Detach(nodes, id)), Some(Entry(prev.key, prev.value)), id)
  }

  /** The room case: `Box::new(LRUEntry::new(k, v))`, whose null links are never followed. */
  function Allocate<K, V>(l: Linked<K, V>, k: K, v: V): Room<K, V> {
    var id := l.unused;
    Room(l.(nodes := l.nodes[id := Item(k, v, id, id)], unused := id + 1), None, id)
  }

  /** Recycling the tail node lists all other nodes as before and nothing else. */
  lemma Evicted<K, V>(l: Linked<K, V>, ids: seq<nat>, k: K, v: V)
    requires Represents(l, ids) && |l.index| == l.cap
    ensures |ids| > 0
    ensures var r := Recycle(l, ids, k, v);
      && Represents(r.list, ids[..|ids| - 1])
      && EntriesOf(r.list.nodes, ids[..|ids| - 1]) == EntriesOf(l.nodes, ids)[..|ids| - 1]
      && r.replaced == Some(EntriesOf(l.nodes, ids)[|ids| - 1])
  {
    EvictedRepresents(l, ids, k, v);
    EvictedEntries(l, ids, k, v);
  }

  lemma EvictedRepresents<K, V>(l: Linked<K, V>, ids: seq<nat>, k: K, v: V)
    requires Represents(l, ids) && |l.index| == l.cap
    ensures |ids| > 0 && Represents(Recycle(l, ids, k, v).list, ids[..|ids| - 1])
  {
    var r := Recycle(l, ids, k, v);
    assert Remove(ids, |ids| - 1) == ids[..|ids| - 1];
    KeptIndex(l, ids, r.list, ids[..|ids| - 1], |ids| - 1);
  }

  lemma EvictedEntries<K, V>(l: Linked<K, V>, ids: seq<nat>, k: K, v: V)
    requires Represents(l, ids) && |l.index| == l.cap
    ensures |ids| > 0
    ensures var r := Recycle(l, ids, k, v);
      && Items(r.list.nodes, ids[..|ids| - 1])
      && EntriesOf(r.list.nodes, ids[..|ids| - 1]) == EntriesOf(l.nodes, ids)[..|ids| - 1]
      && r.replaced == Some(EntriesOf(l.nodes, ids)[|ids| - 1])
  {
    var r := Recycle(l, ids, k, v);
    var n := |ids| - 1;
    var kept := ids[..n];
    assert forall j | 0 <= j < n :: kept[j] == ids[j] && ids[j] != r.node by {
      assert ItemIds(ids);
    }
    assert Items(r.list.nodes, kept);
    assert EntriesOf(r.list.nodes, kept) == EntriesOf(l.nodes, ids)[..n];
  }

  /**
   Dropping the node at `i` from the map and from the list: every node that
   stays listed is still found under its key, and nothing else is.
   */
  lemma KeptIndex<K, V>(l: Linked<K, V>, ids: seq<nat>, r: Linked<K, V>, kept: seq<nat>, i: nat)
    requires Represents(l, ids) && i < |ids| && kept == Remove(ids, i)
    requires Chained(r.nodes, kept) && r.nodes.Keys <= l.nodes.Keys && r.unused == l.unused && r.cap == l.cap
    requires forall x | x in l.nodes && x != ids[i] :: x in r.nodes && r.nodes[x].Item? == l.nodes[x].Item?
    requires forall x | x in l.nodes && x != ids[i] && l.nodes[x].Item? :: r.nodes[x].key == l.nodes[x].key
    requires r.index == l.index - {l.nodes[ids[i]].key}
    ensures Represents(r, kept)
  {
    RemoveMembers(ids, i);
    KeptSound(l, ids, r, kept, ids[i]);
    KeptComplete(l, ids, r, kept, ids[i]);
    assert r.index.Keys == l.index.Keys - {l.nodes[ids[i]].key};
  }

  /** Every node that stays listed is still found under its key. */
  lemma KeptSound<K, V>(l: Linked<K, V>, ids: seq<nat>, r: Linked<K, V>, kept: seq<nat>, id: nat)
    requires Represents(l, ids) && id in ids
    requires forall x :: x in kept <==> x in ids && x != id
    requires forall x | x in l.nodes && x != id :: x in r.nodes && r.nodes[x].Item? == l.nodes[x].Item?
    requires forall x | x in l.nodes && x != id && l.nodes[x].Item? :: r.nodes[x].key == l.nodes[x].key
    requires r.index == l.index - {l.nodes[id].key}
    ensures Items(r.nodes, kept)
    ensures forall j | 0 <= j < |kept| :: r.nodes[kept[j]].key in r.index && r.index[r.nodes[kept[j]].key] == kept[j]
  {
    forall j | 0 <= j < |kept| ensures kept[j] in r.nodes && r.nodes[kept[j]].Item? {
      assert kept[j] in kept;
      var a :| 0 <= a < |ids| && ids[a] == kept[j];
    }
    forall j | 0 <= j < |kept|
      ensures r.nodes[kept[j]].key in r.index && r.index[r.nodes[kept[j]].key] == kept[j]
    {
      assert kept[j] in kept;
      var a :| 0 <= a < |ids| && ids[a] == kept[j];
      var b :| 0 <= b < |ids| && ids[b] == id;
      assert l.index[l.nodes[ids[a]].key] == ids[a] && l.index[l.nodes[ids[b]].key] == ids[b];
    }
  }

  /** Every key left in the map names a node that stays listed. */
  lemma KeptComplete<K, V>(l: Linked<K, V>, ids: seq<nat>, r: Linked<K, V>, kept: seq<nat>, id: nat)
    requires Represents(l, ids) && id in ids
    requires forall x :: x in kept <==> x in ids && x != id
    requires forall x | x in l.nodes && x != id :: x in r.nodes && r.nodes[x].Item? == l.nodes[x].Item?
    requires forall x | x in l.nodes && x != id && l.nodes[x].Item? :: r.nodes[x].key == l.nodes[x].key
    requires r.index == l.index - {l.nodes[id].key}
    ensures forall q | q in r.index ::
      r.index[q] in kept && r.index[q] in r.nodes && r.nodes[r.index[q]].Item? && r.nodes[r.index[q]].key == q
  {
    forall q | q in r.index
      ensures r.index[q] in kept && r.index[q] in r.nodes && r.nodes[r.index[q]].Item? && r.nodes[r.index[q]].key == q
    {
      assert l.index[q] != id;
    }
  }

  /** Allocating leaves the listed nodes as they were. */
  lemma Allocated<K, V>(l: Linked<K, V>, ids: seq<nat>, k: K, v: V)
    requires Represents(l, ids)
    ensures var r := Allocate(l, k, v);
      && r.node != HEAD && r.node != TAIL && r.node !in ids && r.replaced == None
      && Represents(r.list, ids) && EntriesOf(r.list.nodes, ids) == EntriesOf(l.nodes, ids)
  {
    Ends(l, ids);
    var r := Allocate(l, k, v).list;
    assert forall j | 0 <= j < |ids| :: ids[j] in l.nodes;
    SameLinksChained(l.nodes, r.nodes, ids);
  }

  /** Attaching a detached node for a new key and entering it in the map lists it first. */
  lemma Admit<K, V>(l: Linked<K, V>, ids: seq<nat>, id: nat, k: K)
    requires Represents(l, ids) && |ids| < l.cap && k !in l.index
    requires id in l.nodes && l.nodes[id].Item? && l.nodes[id].key == k && id != HEAD && id != TAIL && id !in ids
    ensures HEAD in l.nodes && l.nodes[HEAD].next in l.nodes
    ensures var r := l.(nodes := Attach(l.nodes, id), index := l.index[k := id]);
      Represents(r, [id] + ids) && EntriesOf(r.nodes, [id] + ids) == [Entry(k, l.nodes[id].value)] + EntriesOf(l.nodes, ids)
  {
    AttachChained(l.nodes, ids, id);
    AdmitIndex(l, ids, id, k);
    var nodes := Attach(l.nodes, id);
    EntriesSamePayload(l.nodes, nodes, ids);
    EntriesCons(nodes, id, ids);
  }

  /** The map with the new key sends every listed key to its node, and nothing else. */
  lemma AdmitIndex<K, V>(l: Linked<K, V>, ids: seq<nat>, id: nat, k: K)
    requires Represents(l, ids) && k !in l.index
    requires id in l.nodes && l.nodes[id].Item? && l.nodes[id].key == k && id != HEAD && id != TAIL && id !in ids
    ensures HEAD in l.nodes && l.nodes[HEAD].next in l.nodes
    ensures var r := l.(nodes := Attach(l.nodes, id), index := l.index[k := id]);
      var ids' := [id] + ids;
      && (forall j | 0 <= j < |ids'| :: ids'[j] in r.nodes && r.nodes[ids'[j]].Item?
            && r.nodes[ids'[j]].key in r.index && r.index[r.nodes[ids'[j]].key] == ids'[j])
      && (forall q | q in r.index ::
            r.index[q] in ids' && r.index[q] in r.nodes && r.nodes[r.index[q]].Item? && r.nodes[r.index[q]].key == q)
  {
    AttachChained(l.nodes, ids, id);
    var r := l.(nodes := Attach(l.nodes, id), index := l.index[k := id]);
    var ids' := [id] + ids;
    ConsParts(id, ids, id);
    forall j | 0 <= j < |ids'|
      ensures ids'[j] in r.nodes && r.nodes[ids'[j]].Item?
      ensures r.nodes[ids'[j]].key in r.index && r.index[r.nodes[ids'[j]].key] == ids'[j]
    {
      if j > 0 {
        var x := ids[j - 1];
        assert ids'[j] == x && x in l.nodes && l.nodes[x].Item?;
        assert l.nodes[x].key in l.index && l.index[l.nodes[x].key] == x;
      }
    }
    forall q | q in r.index
      ensures r.index[q] in ids' && r.index[q] in r.nodes && r.nodes[r.index[q]].Item? && r.nodes[r.index[q]].key == q
    {
      if q != k {
        assert l.index[q] in ids && l.index[q] != id;
      }
    }
  }

  /** The entries of a list with one more node in front. */
  lemma EntriesCons<K, V>(nodes: map<nat, Node<K, V>>, id: nat, ids: seq<nat>)
    requires id in nodes && nodes[id].Item? && Items(nodes, ids)
    ensures EntriesOf(nodes, [id] + ids) == [Entry(nodes[id].key, nodes[id].value)] + EntriesOf(nodes, ids)
  {
    ConsParts(id, ids, id);
    assert forall j | 0 <= j < |ids| :: ([id] + ids)[j + 1] == ids[j];
  }

  /** Attaching the node `replace_or_create_node` handed back and entering it in the map. */
  function Enter<K, V>(room: Room<K, V>, ghost kept: seq<nat>, k: K): (r: Linked<K, V>)
    requires Represents(room.list, kept) && |kept| < room.list.cap && k !in room.list.index
    requires room.node in room.list.nodes && room.list.nodes[room.node].Item? && room.list.nodes[room.node].key == k
    requires room.node != HEAD && room.node != TAIL && room.node !in kept
    ensures Represents(r, [room.node] + kept) && r.cap == room.list.cap
    ensures EntriesOf(r.nodes, [room.node] + kept) == [Entry(k, room.list.nodes[room.node].value)] + EntriesOf(room.list.nodes, kept)
  {
    Admit(room.list, kept, room.node, k);
    room.list.(nodes := Attach(room.list.nodes, room.node), index := room.list.index[k := room.node])
  }

  /** `replace_or_create_node` leaves what `Lru.ReplaceOrCreateNode` leaves, and hands back the same pair. */
  lemma ReplaceOrCreateNodeRefines<K, V>(l: Linked<K, V>, ids: seq<nat>, k: K, v: V)
    requires Represents(l, ids)
    ensures Lru.Valid(View(l, ids))
    ensures var r := ReplaceOrCreateNode(l, ids, k, v);
      var c := Lru.ReplaceOrCreateNode(View(l, ids));
      && Items(r.list.nodes, Kept(l, ids))
      && Lru.LruCache(EntriesOf(r.list.nodes, Kept(l, ids)), l.cap) == c.cache
      && r.replaced == c.out
  {
    RepresentsValid(l, ids);
    if |l.index| == l.cap {
      Evicted(l, ids, k, v);
    } else {
      Allocated(l, ids, k, v);
    }
  }

  /** `capturing_put`: swap the value and move the node up, or make a node and attach it. */
  function CapturingPut<K, V>(l: Linked<K, V>, ghost ids: seq<nat>, k: K, v: V, capture: bool)
    : LStep<K, V, Option<Entry<K, V>>>
    requires Represents(l, ids)
  {
    if k in l.index then
      var id := l.index[k];
      var prev := l.nodes[id].value;
      SetValueRepresents(l, ids, id, v);
      var nodes := SetValue(l.nodes, id, v);
      LStep(l.(nodes := Relink(nodes, id, ids)), Some(Entry(k, prev)))
    else
      var room := ReplaceOrCreateNode(l, ids, k, v);
      LStep(Enter(room, Kept(l, ids), k), if capture then room.replaced else None)
  }

  /** Overwriting the entry at `i` and moving it to the front, on the list of entries. */
  lemma WrittenFront<K, V>(e: seq<Entry<K, V>>, i: nat, w: V)
    requires DistinctKeys(e) && i < |e|
    ensures var e1 := e[i := Entry(e[i].key, w)];
      [e1[i]] + e1[..i] + e1[i + 1..] == [Entry(e[i].key, w)] + Without(e, e[i].key)
  {
    var e1 := e[i := Entry(e[i].key, w)];
    assert e1[..i] == e[..i] && e1[i + 1..] == e[i + 1..];
    WithoutSplice(e, i);
  }

  /** Overwriting the value of `k` and then moving its node to the front. */
  lemma WriteThenRelink<K, V>(l: Linked<K, V>, ids: seq<nat>, k: K, w: V)
    requires Represents(l, ids) && k in l.index
    ensures Lru.Valid(View(l, ids)) && k in KeySet(View(l, ids).entries)
    ensures var id := l.index[k];
      var l' := l.(nodes := Relink(SetValue(l.nodes, id, w), id, ids));
      var ids' := Front(ids, Pos(ids, id));
      Represents(l', ids') && View(l', ids').entries == [Entry(k, w)] + Without(View(l, ids).entries, k)
  {
    var c := View(l, ids);
    RepresentsValid(l, ids);
    IndexLookup(l, ids, k);
    var i := IndexOf(c.entries, k);
    var id := l.index[k];
    PosAt(ids, i);
    SetValueRepresents(l, ids, id, w);
    var l1 := l.(nodes := SetValue(l.nodes, id, w));
    RelinkRepresents(l1, ids, id);
    WrittenFront(c.entries, i, w);
  }

  lemma CapturingPutRefines<K, V>(l: Linked<K, V>, ids: seq<nat>, k: K, v: V, capture: bool)
    returns (ids': seq<nat>)
    requires Represents(l, ids)
    ensures Lru.Valid(View(l, ids))
    ensures Represents(CapturingPut(l, ids, k, v, capture).list, ids')
    ensures View(CapturingPut(l, ids, k, v, capture).list, ids') == Lru.CapturingPut(View(l, ids), k, v, capture).cache
    ensures CapturingPut(l, ids, k, v, capture).out == Lru.CapturingPut(View(l, ids), k, v, capture).out
  {
    var c := View(l, ids);
    RepresentsValid(l, ids);
    IndexLookup(l, ids, k);
    if k in l.index {
      WriteThenRelink(l, ids, k, v);
      ids' := Front(ids, Pos(ids, l.index[k]));
      assert Lookup(c.entries, k) == Some(l.nodes[l.index[k]].value);
    } else {
      var room := ReplaceOrCreateNode(l, ids, k, v);
      ReplaceOrCreateNodeRefines(l, ids, k, v);
      ids' := [room.node] + Kept(l, ids);
      assert Lookup(c.entries, k) == None;
    }
  }

  /** `put`: `capturing_put` without capture, keeping only the old value. */
  function Put<K, V>(l: Linked<K, V>, ghost ids: seq<nat>, k: K, v: V): LStep<K, V, Option<V>>
    requires Represents(l, ids)
  {
    var p := CapturingPut(l, ids, k, v, false);
    LStep(p.list, if p.out.Some? then Some(p.out.value.value) else None)
  }

  lemma PutRefines<K, V>(l: Linked<K, V>, ids: seq<nat>, k: K, v: V) returns (ids': seq<nat>)
    requires Represents(l, ids)
    ensures Lru.Valid(View(l, ids))
    ensures Represents(Put(l, ids, k, v).list, ids')
    ensures View(Put(l, ids, k, v).list, ids') == Lru.Put(View(l, ids), k, v).cache
    ensures Put(l, ids, k, v).out == Lru.Put(View(l, ids), k, v).out
  {
    ids' := CapturingPutRefines(l, ids, k, v, false);
  }

  /** `push`: `capturing_put` with capture. */
  function Push<K, V>(l: Linked<K, V>, ghost ids: seq<nat>, k: K, v: V): LStep<K, V, Option<Entry<K, V>>>
    requires Represents(l, ids)
  {
    CapturingPut(l, ids, k, v, true)
  }

  lemma PushRefines<K, V>(l: Linked<K, V>, ids: seq<nat>, k: K, v: V) returns (ids': seq<nat>)
    requires Represents(l, ids)
    ensures Lru.Valid(View(l, ids))
    ensures Represents(Push(l, ids, k, v).list, ids')
    ensures View(Push(l, ids, k, v).list, ids') == Lru.Push(View(l, ids), k, v).cache
    ensures Push(l, ids, k, v).out == Lru.Push(View(l, ids), k, v).out
  {
    ids' := CapturingPutRefines(l, ids, k, v, true);
  }

  // ---------------------------------------------------------------------------
  // get_or_insert, get_or_insert_mut
  // ---------------------------------------------------------------------------

  /** What `get_or_insert` leaves, and the node its returned reference points into. */
  datatype Slot<K(==), V> = Slot(list: Linked<K, V>, node: nat)

  /** The shared body of `get_or_insert` and `get_or_insert_mut`, up to the returned reference. */
  function Fetch<K, V>(l: Linked<K, V>, ghost ids: seq<nat>, k: K, default: V): (r: Slot<K, V>)
    requires Represents(l, ids)
    ensures r.node in r.list.nodes && r.list.nodes[r.node].Item?
  {
    if k in l.index then
      var id := l.index[k];
      Slot(l.(nodes := Relink(l.nodes, id, ids)), id)
    else
      var room := ReplaceOrCreateNode(l, ids, k, default);
      Slot(Enter(room, Kept(l, ids), k), room.node)
  }

  /** After `Fetch` the node holding `k` heads the list. */
  lemma FetchRepresents<K, V>(l: Linked<K, V>, ids: seq<nat>, k: K, default: V) returns (ids': seq<nat>)
    requires Represents(l, ids)
    ensures Lru.Valid(View(l, ids))
    ensures var f := Fetch(l, ids, k, default);
      && Represents(f.list, ids') && |ids'| > 0 && ids'[0] == f.node && f.list.nodes[f.node].key == k
      && View(f.list, ids') == Lru.GetOrInsert(View(l, ids), k, default).cache
      && f.list.nodes[f.node].value == Lru.GetOrInsert(View(l, ids), k, default).out
  {
    var c := View(l, ids);
    RepresentsValid(l, ids);
    IndexLookup(l, ids, k);
    if k in l.index {
      Promoted(l, ids, k);
      ids' := Front(ids, Pos(ids, l.index[k]));
      assert Lookup(c.entries, k) == Some(l.nodes[l.index[k]].value);
    } else {
      var room := ReplaceOrCreateNode(l, ids, k, default);
      ReplaceOrCreateNodeRefines(l, ids, k, default);
      ids' := [room.node] + Kept(l, ids);
      assert Lookup(c.entries, k) == None;
    }
  }

  /** `get_or_insert`: the value the returned reference points at. */
  function GetOrInsert<K, V>(l: Linked<K, V>, ghost ids: seq<nat>, k: K, default: V): LStep<K, V, V>
    requires Represents(l, ids)
  {
    var f := Fetch(l, ids, k, default);
    LStep(f.list, f.list.nodes[f.node].value)
  }

  lemma GetOrInsertRefines<K, V>(l: Linked<K, V>, ids: seq<nat>, k: K, default: V) returns (ids': seq<nat>)
    requires Represents(l, ids)
    ensures Lru.Valid(View(l, ids))
    ensures Represents(GetOrInsert(l, ids, k, default).list, ids')
    ensures View(GetOrInsert(l, ids, k, default).list, ids') == Lru.GetOrInsert(View(l, ids), k, default).cache
    ensures GetOrInsert(l, ids, k, default).out == Lru.GetOrInsert(View(l, ids), k, default).out
  {
    ids' := FetchRepresents(l, ids, k, default);
  }

  /** `get_or_insert_mut`: `get_or_insert`, then the caller writes `write(v)` through the reference. */
  function GetOrInsertMut<K, V>(l: Linked<K, V>, ghost ids: seq<nat>, k: K, default: V, write: V -> V)
    : LStep<K, V, V>
    requires Represents(l, ids)
  {
    var f := Fetch(l, ids, k, default);
    var v := f.list.nodes[f.node].value;
    LStep(f.list.(nodes := SetValue(f.list.nodes, f.node, write(v))), v)
  }

  /** A missed key is entered at the head and its value then overwritten. */
  lemma EnterThenWrite<K, V>(l: Linked<K, V>, ids: seq<nat>, k: K, default: V, w: V)
    requires Represents(l, ids) && k !in l.index
    ensures Lru.Valid(View(l, ids))
    ensures var room := ReplaceOrCreateNode(l, ids, k, default);
      var e := Enter(room, Kept(l, ids), k);
      var l' := e.(nodes := SetValue(e.nodes, room.node, w));
      && Represents(l', [room.node] + Kept(l, ids))
      && View(l', [room.node] + Kept(l, ids)).entries == [Entry(k, w)] + Lru.ReplaceOrCreateNode(View(l, ids)).cache.entries
  {
    RepresentsValid(l, ids);
    var room := ReplaceOrCreateNode(l, ids, k, default);
    ReplaceOrCreateNodeRefines(l, ids, k, default);
    var kept := EntriesOf(room.list.nodes, Kept(l, ids));
    var e := Enter(room, Kept(l, ids), k);
    var ids' := [room.node] + Kept(l, ids);
    PosAt(ids', 0);
    SetValueRepresents(e, ids', room.node, w);
    ConsParts(Entry(k, default), kept, Entry(k, w));
  }

  lemma GetOrInsertMutRefines<K, V>(l: Linked<K, V>, ids: seq<nat>, k: K, default: V, write: V -> V)
    returns (ids': seq<nat>)
    requires Represents(l, ids)
    ensures Lru.Valid(View(l, ids))
    ensures Represents(GetOrInsertMut(l, ids, k, default, write).list, ids')
    ensures View(GetOrInsertMut(l, ids, k, default, write).list, ids')
      == Lru.GetOrInsertMut(View(l, ids), k, default, write).cache
    ensures GetOrInsertMut(l, ids, k, default, write).out == Lru.GetOrInsertMut(View(l, ids), k, default, write).out
  {
    if k in l.index {
      ids' := GetOrInsertMutHit(l, ids, k, default, write);
    } else {
      ids' := GetOrInsertMutMiss(l, ids, k, default, write);
    }
  }

  /** `get_or_insert_mut` on a present key: `get`, then the write. */
  lemma GetOrInsertMutHit<K, V>(l: Linked<K, V>, ids: seq<nat>, k: K, default: V, write: V -> V)
    returns (ids': seq<nat>)
    requires Represents(l, ids) && k in l.index
    ensures Lru.Valid(View(l, ids))
    ensures Represents(GetOrInsertMut(l, ids, k, default, write).list, ids')
    ensures View(GetOrInsertMut(l, ids, k, default, write).list, ids')
      == Lru.GetOrInsertMut(View(l, ids), k, default, write).cache
    ensures GetOrInsertMut(l, ids, k, default, write).out == Lru.GetOrInsertMut(View(l, ids), k, default, write).out
  {
    var c := View(l, ids);
    KeyPos(l, ids, k);
    var id := l.index[k];
    var i := IndexOf(c.entries, k);
    var v := c.entries[i].value;
    assert Relink(l.nodes, id, ids)[id].value == v;
    LookupAt(c.entries, i);
    RelinkThenWrite(l, ids, k, write(v));
    ids' := Front(ids, i);
    var g := Lru.GetOrInsert(c, k, default);
    SpliceParts(c.entries[i], c.entries[..i], c.entries[i + 1..], c.entries[i]);
    WithoutSplice(c.entries, i);
    assert g.cache.entries[1..] == Without(c.entries, k);
  }

  /** `get_or_insert_mut` on an absent key: the insertion, then the write. */
  lemma GetOrInsertMutMiss<K, V>(l: Linked<K, V>, ids: seq<nat>, k: K, default: V, write: V -> V)
    returns (ids': seq<nat>)
    requires Represents(l, ids) && k !in l.index
    ensures Lru.Valid(View(l, ids))
    ensures Represents(GetOrInsertMut(l, ids, k, default, write).list, ids')
    ensures View(GetOrInsertMut(l, ids, k, default, write).list, ids')
      == Lru.GetOrInsertMut(View(l, ids), k, default, write).cache
    ensures GetOrInsertMut(l, ids, k, default, write).out == Lru.GetOrInsertMut(View(l, ids), k, default, write).out
  {
    var c := View(l, ids);
    RepresentsValid(l, ids);
    IndexLookup(l, ids, k);
    var room := ReplaceOrCreateNode(l, ids, k, default);
    EnterThenWrite(l, ids, k, default, write(default));
    ids' := [room.node] + Kept(l, ids);
    var g := Lru.GetOrInsert(c, k, default);
    var lc := Lru.ReplaceOrCreateNode(c);
    assert Lookup(c.entries, k) == None;
    assert g.cache.entries == [Entry(k, default)] + lc.cache.entries;
    ConsParts(Entry(k, default), lc.cache.entries, Entry(k, default));
  }

  // ---------------------------------------------------------------------------
  // Removal: pop, pop_entry, detach_last, pop_last
  // ---------------------------------------------------------------------------

  /** A node that is off the chain can be freed without disturbing it. */
  lemma FreeChained<K, V>(nodes: map<nat, Node<K, V>>, ids: seq<nat>, id: nat)
    requires Chained(nodes, ids) && id != HEAD && id != TAIL && id !in ids
    ensures Chained(nodes - {id}, ids)
  {
    var ch := Chain(ids);
    forall j | 0 <= j < |ch| ensures ch[j] != id {
      if 0 < j < |ch| - 1 {
        assert ch[j] == ids[j - 1];
      }
    }
  }

  /** Entries read through the same identifiers from nodes with the same payload. */
  lemma EntriesKept<K, V>(a: map<nat, Node<K, V>>, b: map<nat, Node<K, V>>, ids: seq<nat>)
    requires Items(a, ids)
    requires forall j | 0 <= j < |ids| ::
      ids[j] in b && b[ids[j]].Item? && b[ids[j]].key == a[ids[j]].key && b[ids[j]].value == a[ids[j]].value
    ensures Items(b, ids) && EntriesOf(b, ids) == EntriesOf(a, ids)
  {
  }

  /**
   The node `id` leaves the map and the list and is freed: the map entry for
   its key is removed, its neighbours are linked to each other, and the
   `Box` is dropped.
   */
  function Unlinked<K, V>(l: Linked<K, V>, ghost ids: seq<nat>, id: nat): (r: Linked<K, V>)
    requires Represents(l, ids) && id in ids
    ensures r.cap == l.cap
  {
    DetachChained(l.nodes, ids, Pos(ids, id));
    l.(index := l.index - {l.nodes[id].key}, nodes := Detach(l.nodes, id) - {id})
  }

  /** Unlinking the node at position `i` removes exactly its entry from the list. */
  lemma UnlinkedRepresents<K, V>(l: Linked<K, V>, ids: seq<nat>, id: nat)
    requires Represents(l, ids) && id in ids
    ensures var i := Pos(ids, id);
      var r := Unlinked(l, ids, id);
      var e := EntriesOf(l.nodes, ids);
      && Represents(r, Remove(ids, i))
      && EntriesOf(r.nodes, Remove(ids, i)) == e[..i] + e[i + 1..]
  {
    UnlinkedIndex(l, ids, id);
    UnlinkedEntries(l, ids, id);
  }

  lemma UnlinkedIndex<K, V>(l: Linked<K, V>, ids: seq<nat>, id: nat)
    requires Represents(l, ids) && id in ids
    ensures Represents(Unlinked(l, ids, id), Remove(ids, Pos(ids, id)))
  {
    var i := Pos(ids, id);
    FreedLinks(l.nodes, ids, i);
    KeptIndex(l, ids, Unlinked(l, ids, id), Remove(ids, i), i);
  }

  /** Detaching and freeing the node at `i` leaves the rest of the chain and every other node's payload. */
  lemma FreedLinks<K, V>(nodes: map<nat, Node<K, V>>, ids: seq<nat>, i: nat)
    requires Chained(nodes, ids) && i < |ids|
    ensures ids[i] in nodes && nodes[ids[i]].prev in nodes && nodes[ids[i]].next in nodes
    ensures var freed := Detach(nodes, ids[i]) - {ids[i]};
      && Chained(freed, Remove(ids, i)) && freed.Keys <= nodes.Keys
      && (forall x | x in nodes && x != ids[i] :: x in freed && freed[x].Item? == nodes[x].Item?)
      && (forall x | x in nodes && x != ids[i] && nodes[x].Item? :: freed[x].key == nodes[x].key)
  {
    DetachChained(nodes, ids, i);
    RemoveMembers(ids, i);
    FreeChained(Detach(nodes, ids[i]), Remove(ids, i), ids[i]);
  }

  lemma UnlinkedEntries<K, V>(l: Linked<K, V>, ids: seq<nat>, id: nat)
    requires Represents(l, ids) && id in ids
    ensures var i := Pos(ids, id);
      var e := EntriesOf(l.nodes, ids);
      && Items(Unlinked(l, ids, id).nodes, Remove(ids, i))
      && EntriesOf(Unlinked(l, ids, id).nodes, Remove(ids, i)) == e[..i] + e[i + 1..]
  {
    FreedEntries(l.nodes, ids, Pos(ids, id));
  }

  /** Detaching and freeing the node at `i` removes exactly its entry. */
  lemma FreedEntries<K, V>(nodes: map<nat, Node<K, V>>, ids: seq<nat>, i: nat)
    requires Chained(nodes, ids) && Items(nodes, ids) && i < |ids|
    ensures ids[i] in nodes && nodes[ids[i]].prev in nodes && nodes[ids[i]].next in nodes
    ensures var freed := Detach(nodes, ids[i]) - {ids[i]};
      var e := EntriesOf(nodes, ids);
      Items(freed, Remove(ids, i)) && EntriesOf(freed, Remove(ids, i)) == e[..i] + e[i + 1..]
  {
    var id := ids[i];
    var kept := Remove(ids, i);
    DetachChained(nodes, ids, i);
    var freed := Detach(nodes, id) - {id};
    RemoveMembers(ids, i);
    EntriesSplice(nodes, ids, i);
    forall j | 0 <= j < |kept| ensures kept[j] in freed && freed[kept[j]] == Detach(nodes, id)[kept[j]] {
      assert kept[j] in kept;
    }
    EntriesKept(nodes, freed, kept);
  }

  /** `pop`: the map entry is removed, the node detached and dropped, and its value returned. */
  function Pop<K, V>(l: Linked<K, V>, ghost ids: seq<nat>, k: K): LStep<K, V, Option<V>>
    requires Represents(l, ids)
  {
    if k in l.index then
      var id := l.index[k];
      LStep(Unlinked(l, ids, id), Some(l.nodes[id].value))
    else
      LStep(l, None)
  }

  /** Unlinking the node of a present key is `Lru.Unlink` on the list. */
  lemma Unlinks<K, V>(l: Linked<K, V>, ids: seq<nat>, k: K)
    requires Represents(l, ids) && k in l.index
    ensures Lru.Valid(View(l, ids)) && k in KeySet(View(l, ids).entries)
    ensures var id := l.index[k];
      var r := Unlinked(l, ids, id);
      var ids' := Remove(ids, Pos(ids, id));
      Represents(r, ids') && View(r, ids') == Lru.Unlink(View(l, ids), k)
  {
    KeyPos(l, ids, k);
    var id := l.index[k];
    var c := View(l, ids);
    var i := IndexOf(c.entries, k);
    UnlinkedRepresents(l, ids, id);
    var u := Lru.Unlink(c, k);
    assert u.entries == c.entries[..i] + c.entries[i + 1..] && u.cap == c.cap;
    var r := Unlinked(l, ids, id);
    assert View(r, Remove(ids, i)).entries == u.entries;
  }

  /** The entry at the position of a present key is the pair its node holds. */
  lemma NodeEntry<K, V>(l: Linked<K, V>, ids: seq<nat>, k: K)
    requires Represents(l, ids) && k in l.index
    ensures Lru.Valid(View(l, ids)) && k in KeySet(View(l, ids).entries)
    ensures var id := l.index[k];
      View(l, ids).entries[IndexOf(View(l, ids).entries, k)] == Entry(l.nodes[id].key, l.nodes[id].value)
  {
    KeyPos(l, ids, k);
  }

  lemma PopRefines<K, V>(l: Linked<K, V>, ids: seq<nat>, k: K) returns (ids': seq<nat>)
    requires Represents(l, ids)
    ensures Lru.Valid(View(l, ids))
    ensures Represents(Pop(l, ids, k).list, ids')
    ensures View(Pop(l, ids, k).list, ids') == Lru.Pop(View(l, ids), k).cache
    ensures Pop(l, ids, k).out == Lru.Pop(View(l, ids), k).out
  {
    RepresentsValid(l, ids);
    IndexLookup(l, ids, k);
    if k in l.index {
      Unlinks(l, ids, k);
      NodeEntry(l, ids, k);
      ids' := Remove(ids, Pos(ids, l.index[k]));
    } else {
      ids' := ids;
    }
  }

  /** `pop_entry`: as `pop`, returning the key stored in the node with the value. */
  function PopEntry<K, V>(l: Linked<K, V>, ghost ids: seq<nat>, k: K): LStep<K, V, Option<Entry<K, V>>>
    requires Represents(l, ids)
  {
    if k in l.index then
      var id := l.index[k];
      LStep(Unlinked(l, ids, id), Some(Entry(l.nodes[id].key, l.nodes[id].value)))
    else
      LStep(l, None)
  }

  lemma PopEntryRefines<K, V>(l: Linked<K, V>, ids: seq<nat>, k: K) returns (ids': seq<nat>)
    requires Represents(l, ids)
    ensures Lru.Valid(View(l, ids))
    ensures Represents(PopEntry(l, ids, k).list, ids')
    ensures View(PopEntry(l, ids, k).list, ids') == Lru.PopEntry(View(l, ids), k).cache
    ensures PopEntry(l, ids, k).out == Lru.PopEntry(View(l, ids), k).out
  {
    RepresentsValid(l, ids);
    IndexLookup(l, ids, k);
    if k in l.index {
      Unlinks(l, ids, k);
      NodeEntry(l, ids, k);
      ids' := Remove(ids, Pos(ids, l.index[k]));
    } else {
      ids' := ids;
    }
  }

  /**
   `pop_last`: `detach_last` takes the node before the tail sentinel, unless
   that is the head sentinel, out of the map and the list; its pair is returned.
   */
  function PopLast<K, V>(l: Linked<K, V>, ghost ids: seq<nat>): (r: LStep<K, V, Option<Entry<K, V>>>)
    requires Represents(l, ids)
    ensures r.out.None? <==> |ids| == 0
    ensures r.out.None? ==> r.list == l
  {
    Ends(l, ids);
    var prev := l.nodes[TAIL].prev;
    if prev != HEAD then
      LStep(Unlinked(l, ids, prev), Some(Entry(l.nodes[prev].key, l.nodes[prev].value)))
    else
      LStep(l, None)
  }

  lemma PopLastRefines<K, V>(l: Linked<K, V>, ids: seq<nat>) returns (ids': seq<nat>)
    requires Represents(l, ids)
    ensures Lru.Valid(View(l, ids))
    ensures Represents(PopLast(l, ids).list, ids')
    ensures View(PopLast(l, ids).list, ids') == Lru.PopLast(View(l, ids)).cache
    ensures PopLast(l, ids).out == Lru.PopLast(View(l, ids)).out
  {
    RepresentsValid(l, ids);
    if |ids| == 0 {
      ids' := ids;
    } else {
      var n := |ids| - 1;
      var c := View(l, ids);
      ids' := PopLastStep(l, ids);
      LastEntry(l, ids);
      var p := Lru.PopLast(c);
      assert p.cache == Lru.LruCache(c.entries[..n], c.cap) && p.out == Some(c.entries[n]);
    }
  }

  /** The pair `detach_last` hands back is the last entry of the list. */
  lemma LastEntry<K, V>(l: Linked<K, V>, ids: seq<nat>)
    requires Represents(l, ids) && |ids| > 0
    ensures PopLast(l, ids).out == Some(View(l, ids).entries[|ids| - 1])
  {
    Ends(l, ids);
  }

  // ---------------------------------------------------------------------------
  // Capacity: resize, clear
  // ---------------------------------------------------------------------------

  /** One `pop_last` on a non-empty list drops its last node and nothing else. */
  lemma PopLastStep<K, V>(l: Linked<K, V>, ids: seq<nat>) returns (ids': seq<nat>)
    requires Represents(l, ids) && |ids| > 0
    ensures PopLast(l, ids).out.Some?
    ensures Represents(PopLast(l, ids).list, ids') && PopLast(l, ids).list.cap == l.cap
    ensures |ids'| == |ids| - 1 && EntriesOf(PopLast(l, ids).list.nodes, ids') == EntriesOf(l.nodes, ids)[..|ids| - 1]
  {
    var n := |ids| - 1;
    PopLastIsUnlinked(l, ids);
    UnlinkedRepresents(l, ids, ids[n]);
    ids' := Remove(ids, Pos(ids, ids[n]));
    DropLast(EntriesOf(l.nodes, ids));
  }

  /** On a non-empty list `pop_last` unlinks the last node of the chain. */
  lemma PopLastIsUnlinked<K, V>(l: Linked<K, V>, ids: seq<nat>)
    requires Represents(l, ids) && |ids| > 0
    ensures ids[|ids| - 1] in ids && Pos(ids, ids[|ids| - 1]) == |ids| - 1
    ensures PopLast(l, ids).out.Some? && PopLast(l, ids).list == Unlinked(l, ids, ids[|ids| - 1])
  {
    Ends(l, ids);
    PosAt(ids, |ids| - 1);
  }

  /** Replacing the capacity by one the list fits under keeps the structure well formed. */
  lemma WithCap<K, V>(l: Linked<K, V>, ids: seq<nat>, cap: Lru.Capacity)
    requires Represents(l, ids) && |ids| <= cap
    ensures Represents(l.(cap := cap), ids) && EntriesOf(l.(cap := cap).nodes, ids) == EntriesOf(l.nodes, ids)
  {
  }

  /**
   `resize`: the same capacity is a no-op; otherwise `pop_last` runs while the
   map holds more than `cap` keys, and the capacity becomes `cap`.
   */
  method Resize<K, V>(l: Linked<K, V>, ghost ids: seq<nat>, cap: Lru.Capacity) returns (r: Linked<K, V>, ghost ids': seq<nat>)
    requires Represents(l, ids)
    ensures Represents(r, ids') && r.cap == cap
    ensures |ids'| == if |ids| <= cap then |ids| else cap
    ensures View(r, ids').entries == View(l, ids).entries[..|ids'|]
    ensures cap == l.cap ==> r == l && ids' == ids
  {
    if cap == l.cap {
      PrefixAll(EntriesOf(l.nodes, ids));
      return l, ids;
    }
    r, ids' := Shrink(l, ids, cap);
    WithCap(r, ids', cap);
    r := r.(cap := cap);
  }

  /** The loop of `resize`: `pop_last` while the map holds more than `cap` keys. */
  method Shrink<K, V>(l: Linked<K, V>, ghost ids: seq<nat>, cap: nat) returns (r: Linked<K, V>, ghost ids': seq<nat>)
    requires Represents(l, ids)
    ensures Represents(r, ids') && r.cap == l.cap
    ensures |ids'| == if |ids| <= cap then |ids| else cap
    ensures EntriesOf(r.nodes, ids') == EntriesOf(l.nodes, ids)[..|ids'|]
  {
    ghost var e := EntriesOf(l.nodes, ids);
    PrefixAll(e);
    r, ids' := l, ids;
    while |r.index| > cap
      invariant Represents(r, ids') && r.cap == l.cap
      invariant |ids'| == |ids| || cap <= |ids'| < |ids|
      invariant EntriesOf(r.nodes, ids') == e[..|ids'|]
      decreases |ids'|
    {
      ghost var prior := ids';
      ids' := PopLastStep(r, ids');
      r := PopLast(r, prior).list;
      PrefixOfPrefix(e, |prior|, |ids'|);
    }
    assert |r.index| == |ids'|;
  }

  /** `clear`: `pop_last` until it returns `None`; the capacity stays. */
  method Clear<K, V>(l: Linked<K, V>, ghost ids: seq<nat>) returns (r: Linked<K, V>, ghost ids': seq<nat>)
    requires Represents(l, ids)
    ensures Represents(r, ids') && ids' == []
    ensures r.cap == l.cap && r.index == map[]
  {
    r, ids' := l, ids;
    while true
      invariant Represents(r, ids') && r.cap == l.cap
      decreases |ids'|
    {
      ghost var prior := ids';
      var p := PopLast(r, prior);
      if p.out.None? {
        break;
      }
      ghost var next := PopLastStep(r, prior);
      r, ids' := p.list, next;
    }
  }

  // ---------------------------------------------------------------------------
  // Iteration: Iter::next, Iter::next_back
  // ---------------------------------------------------------------------------

  /**
   `iter` then `next` until `None`: `ptr` starts at the head sentinel's `next`,
   each step reads the node and follows its `next`, and `len` counts down from
   `len()`. The pairs come out in list order, most recently used first.
   */
  method Walk<K, V>(l: Linked<K, V>, ghost ids: seq<nat>) returns (out: seq<Entry<K, V>>)
    requires Represents(l, ids)
    ensures out == View(l, ids).entries
  {
    Ends(l, ids);
    ghost var ch := Chain(ids);
    ghost var e := EntriesOf(l.nodes, ids);
    var len := |l.index|;
    var ptr := l.nodes[HEAD].next;
    out := [];
    assert |ch| == |ids| + 2 && ch[1] == ptr;
    while len > 0
      invariant 0 <= len && |out| + len == |ids|
      invariant ptr == ch[|out| + 1]
      invariant out == e[..|out|]
      decreases len
    {
      ghost var j := |out|;
      assert ch[j + 1] == ids[j] && ch[j + 2] == ch[(j + 1) + 1];
      var node := l.nodes[ptr];
      out := out + [Entry(node.key, node.value)];
      ptr := node.next;
      len := len - 1;
      assert e[..j + 1] == e[..j] + [e[j]];
    }
  }

  /**
   `iter` then `next_back` until `None`: `end` starts at the tail sentinel's
   `prev` and follows `prev` links. The pairs come out least recently used first.
   */
  method WalkBack<K, V>(l: Linked<K, V>, ghost ids: seq<nat>) returns (out: seq<Entry<K, V>>)
    requires Represents(l, ids)
    ensures |out| == |ids|
    ensures forall j | 0 <= j < |out| :: out[j] == View(l, ids).entries[|ids| - 1 - j]
  {
    Ends(l, ids);
    ghost var ch := Chain(ids);
    ghost var e := EntriesOf(l.nodes, ids);
    var len := |l.index|;
    var end := l.nodes[TAIL].prev;
    out := [];
    assert |ch| == |ids| + 2 && ch[|ids|] == end;
    while len > 0
      invariant 0 <= len && |out| + len == |ids|
      invariant end == ch[len]
      invariant forall j | 0 <= j < |out| :: out[j] == e[|ids| - 1 - j]
      decreases len
    {
      assert ch[len] == ids[len - 1];
      var node := l.nodes[end];
      out := out + [Entry(node.key, node.value)];
      end := node.prev;
      len := len - 1;
    }
  }
}
