# LRU cache: a Dafny model

This project models the in-memory LRU cache of the `lru` crate, made of two files:

- `lru/src/lru/lru_cache.rs` is the implementation. `LRUCache` is a hash map from keys to heap nodes plus a doubly linked list of those nodes between two sentinel nodes. The list runs from the most recently used entry at the head to the least recently used one at the tail.
- `lru/src/lru/cache.rs` declares the `Cache` trait. Its doc comments state what each operation promises.

The model has two layers:

- **The cache as a value** (`option.dfy`, `entries.dfy`, `lru.dfy`, `lru_iter.dfy`).
  - `Lru.LruCache` holds the entries as a sequence in recency order, most recently used first, together with the capacity, a `NonZeroUsize`.
  - `Lru.Valid` is the invariant: keys are pairwise distinct and there are at most `cap` of them.
  - Each trait operation is a pure function from the cache before the call to a `Step`: the cache after the call, paired with what the call returns.
  - `resize`, `clear` and the iterators loop in the source. Here they are methods with loops, each proved against a functional contract.
  - Operations that hand out a `&mut V` (`get_mut`, `peek_mut`, `get_or_insert_mut`) take a `write: V -> V` parameter. It stands for what the caller stores through the reference.
  - `len`, `cap` and `is_empty` are the plain accessors `Lru.Len`, `.cap` and `Lru.IsEmpty`.
- **The linked representation** (`linked.dfy`, module `LinkedLru`).
  - `LinkedLru.Linked` is the hash map from keys to node identifiers, a map from identifiers to nodes, and the capacity.
  - The two sentinels are the identifiers `HEAD` and `TAIL`.
  - Each node is a sentinel or an item holding a key, a value and `prev`/`next` links.
  - The operations are written the way the Rust code performs them: `detach`, `attach`, `attach_last`, `detach_last`, `replace_or_create_node`, and map inserts and removes.
  - A ghost sequence of identifiers records the list order.
  - `LinkedLru.Represents` says the links, the map and that sequence agree. `LinkedLru.View` reads off the `Lru.LruCache` the structure stands for.
  - One refinement lemma per operation proves two things. First, the operation keeps `Represents`. Second, it does to the view exactly what the `Lru` function does, and returns the same thing.

Further modules:

- `lru_properties.dfy` holds properties that relate several calls. These include the map each cache stands for (`AsMap`), put-then-get, put-then-pop round trips, idempotence of `put`, eviction of the tail, and `promote`/`demote`.
- `lru_scenarios.dfy` replays unit tests of `lru_cache.rs` on concrete keys.

## Model

| member | source | states |
|---|---|---|
| Lru.New | lru/src/lru/lru_cache.rs:392-394 | a new cache is valid, empty and has the requested capacity |
| Lru.Unbounded | lru/src/lru/lru_cache.rs:397-399 | an unbounded cache is valid, empty and has capacity `usize::MAX` |
| Lru.MoveToFront | lru/src/lru/lru_cache.rs:237-252 | detach then attach of a present key's node: its entry is spliced out and put first, and the others keep their order. Keys, length and capacity are unchanged. An absent key changes nothing |
| Lru.MoveToBack | lru/src/lru/lru_cache.rs:272-279 | detach then attach_last: the entry is spliced out and put last, and the others keep their order. An absent key changes nothing |
| Lru.ReplaceOrCreateNode | lru/src/lru/lru_cache.rs:283-310 | takes the tail entry exactly when `len == cap` and nothing otherwise. The remaining list followed by the taken entry is the original list. Afterwards there is room for one more key |
| Lru.CapturingPut | lru/src/lru/lru_cache.rs:315-347 | `k` heads the list holding `v`, and the others keep their values and order. Only the tail can fall off, and only for a new key in a full cache. It returns the old pair for a present key, the tail pair when capturing in a full cache, and `None` otherwise |
| Lru.Put | lru/src/lru/lru_cache.rs:413 | the insertion above. The result is the previous value of `k`: `None` exactly for a new key, even when the insertion evicts |
| Lru.Push | lru/src/lru/lru_cache.rs:415 | the insertion above. The result is `None` exactly when `k` is new and there is room. Otherwise it is the old pair of `k`, or the evicted tail pair |
| Lru.Get | lru/src/lru/lru_cache.rs:417-432 | the cache after the call is `MoveToFront`. The result is `None` exactly when `k` is absent; otherwise it is the stored value, now at the head |
| Lru.GetMut | lru/src/lru/lru_cache.rs:434-449 | returns the stored value, or `None` without any change. On a hit, the written value heads the list and the length is unchanged |
| Lru.GetOrInsert | lru/src/lru/lru_cache.rs:451-476 | on a present key, returns the stored value, ignores the default and moves the key to the front. On an absent key, inserts the default at the head and returns it. Afterwards `k` maps to the result |
| Lru.GetOrInsertMut | lru/src/lru/lru_cache.rs:478-503 | as `get_or_insert`, and the written value is what `k` holds at the head. A hit keeps the length |
| Lru.Peek | lru/src/lru/lru_cache.rs:505-513 | `None` exactly when `k` is absent, otherwise the value of `k`'s entry. There is no cache after the call, so the order cannot change |
| Lru.PeekMut | lru/src/lru/lru_cache.rs:515-523 | returns what `peek` returns. The key order stays as it was; only `k`'s value becomes the written one |
| Lru.PeekLast | lru/src/lru/lru_cache.rs:525-537 | `None` exactly when the cache is empty, otherwise the last (least recently used) entry |
| Lru.Contains | lru/src/lru/lru_cache.rs:539-545 | true exactly when some entry has key `k` |
| Lru.Unlink | lru/src/lru/lru_cache.rs:552-561 | removing `k` from the map and detaching its node: exactly `k`'s entry leaves the list, and the rest keep their order. An absent key changes nothing |
| Lru.Pop | lru/src/lru/lru_cache.rs:547-568 | `None` exactly when `k` is absent; otherwise the value of `k`, and the cache after the call is `Unlink(c, k)` |
| Lru.PopEntry | lru/src/lru/lru_cache.rs:570-585 | as `pop`, returning the whole pair |
| Lru.PopLast | lru/src/lru/lru_cache.rs:587-593 | returns what `peek_last` returns. The remaining list followed by the popped pair is the original list. An empty cache is unchanged |
| Lru.Promote | lru/src/lru/lru_cache.rs:595-605 | a present key's entry comes first and the others keep their order. An absent key changes nothing |
| Lru.Demote | lru/src/lru/lru_cache.rs:607-617 | a present key's entry comes last and the others keep their order. An absent key changes nothing |
| Lru.Resize | lru/src/lru/lru_cache.rs:619-630 | keeps the `min(len, cap)` most recently used entries in order and takes the new capacity. The same capacity leaves the cache as it was |
| Lru.Clear | lru/src/lru/lru_cache.rs:632 | empties the cache and keeps the capacity |
| LruIter.IterOf | lru/src/lru/lru_cache.rs:366-373 | an iterator over all `len` entries, starting at the head |
| LruIter.Next | lru/src/lru/lru_cache.rs:57-69 | `None` exactly when nothing is left; otherwise the front entry, with one fewer left |
| LruIter.NextBack | lru/src/lru/lru_cache.rs:82-94 | `None` exactly when nothing is left; otherwise the back entry, with one fewer left |
| LruIter.Collect | lru/src/lru/lru_cache.rs:57-69 | repeated `next` yields exactly the entries, most recently used first |
| LruIter.CollectBack | lru/src/lru/lru_cache.rs:82-94 | repeated `next_back` yields exactly the entries in reverse, least recently used first |
| LruIter.Drain | lru/src/lru/lru_cache.rs:181-194 | the owning iterator (`pop_last` until `None`) yields the entries least recently used first and leaves the cache empty |
| LruProperties.InsertedMapView | lru/src/lru/lru_cache.rs:315-347 | after any insertion, the map the cache stands for is the old map, minus the evicted tail key if any, with `k := v` |
| LruProperties.PutMapView | lru/src/lru/cache.rs:51-53 | `put` refines a bounded map update, and `len <= cap` afterwards |
| LruProperties.ReorderMapView | lru/src/lru/cache.rs:136-146 | `promote`, `demote` and `get` leave the map the cache stands for unchanged |
| LruProperties.PopMapView | lru/src/lru/cache.rs:118-130 | `pop` and `pop_entry` remove exactly `k` from the map the cache stands for |
| LruProperties.GetAfterPut | lru/src/lru/lru_cache.rs:815-823 | `get` after `put(k, v)` returns `v` and leaves the cache as `put` left it |
| LruProperties.PopAfterPut | lru/src/lru/lru_cache.rs:547-568 | when `k` is present or there is room, `pop(k)` after `put(k, v)` returns `v` and leaves the original cache with `k` unlinked |
| LruProperties.PutPopRoundTrip | lru/src/lru/lru_cache.rs:333-345 | a new key put into a cache with room and then popped gives back the original cache and `v` |
| LruProperties.PutIdempotent | lru/src/lru/lru_cache.rs:315-332 | putting the same pair twice leaves what one put leaves; the second call returns `v` |
| LruProperties.FullInsertEvictsTail | lru/src/lru/lru_cache.rs:283-310 | a new key in a full cache: `push` returns the tail pair and `put` returns `None`. Both leave the same cache, whose keys lose the tail key and gain `k`, at the same length |
| LruProperties.PromoteSurvivesEviction | lru/src/lru/cache.rs:136-141 | a promoted key is not evicted by the next insertion of a new key into a full cache of capacity at least 2 |
| LruProperties.DemoteThenPopLast | lru/src/lru/cache.rs:142-146 | after `demote(k)`, the next `pop_last` returns `k` with its value |
| LruScenarios.PromoteAndDemoteScenario | lru/src/lru/lru_cache.rs:1353-1368 | push 0..4, promote 1 and 0, demote 3 and 4: the list runs 0, 1, 2, 3, 4 from head to tail, so `pop_last` yields 4 down to 0 |
| LruScenarios.PutRemovesOldestScenario | lru/src/lru/lru_cache.rs:826-835 | with capacity 2, the third `put` evicts apple, and each `put` of a new key returns `None` |
| LruScenarios.PutRemovesOldestContinued | lru/src/lru/lru_cache.rs:834-844 | reading banana then pear reorders them. Putting apple then tomato evicts banana and then pear, each `put` returning `None` |
| LruScenarios.PutFiveScenario | lru/src/lru/lru_cache.rs:1221-1227 | putting a..e into an empty cache of capacity 5 gives e, d, c, b, a |
| LruScenarios.PopDetachesScenario | lru/src/lru/lru_cache.rs:1229-1239 | popping c returns 3 and unlinks it. Putting f then evicts nothing, and iteration yields f, e, d, b, a |
| LinkedLru.New | lru/src/lru/lru_cache.rs:220-233 | the two linked sentinels and an empty map represent the empty list, and the view is `Lru.New` |
| LinkedLru.Unbounded | lru/src/lru/lru_cache.rs:397-399 | the same with capacity `usize::MAX`; the view is `Lru.Unbounded` |
| LinkedLru.DetachChained | lru/src/lru/lru_cache.rs:237-243 | `detach` splices the node out of the chain of links and changes no key or value |
| LinkedLru.AttachChained | lru/src/lru/lru_cache.rs:245-252 | `attach` of an unlisted node makes it the first of the chain and changes no key or value |
| LinkedLru.AttachLastChained | lru/src/lru/lru_cache.rs:272-279 | `attach_last` of an unlisted node makes it the last of the chain and changes no key or value |
| LinkedLru.Relink | lru/src/lru/lru_cache.rs:425-426 | detach then attach moves the node to the front of the chain and keeps every payload |
| LinkedLru.RelinkLast | lru/src/lru/lru_cache.rs:614-615 | detach then attach_last moves the node to the back of the chain and keeps every payload |
| LinkedLru.RepresentsValid | lru/src/lru/lru_cache.rs:203-212 | the list a well-formed structure stands for has distinct keys and fits the capacity |
| LinkedLru.IndexLookup | lru/src/lru/lru_cache.rs:422 | a key is in the hash map exactly when it is in the list, and the map names the node at that key's position |
| LinkedLru.Ends | lru/src/lru/lru_cache.rs:254-256 | the head sentinel's `next` is the first listed node and the tail sentinel's `prev` the last, or each other when the list is empty |
| LinkedLru.Peek | lru/src/lru/lru_cache.rs:505-513 | the map lookup returns what `Lru.Peek` returns on the view |
| LinkedLru.PeekLast | lru/src/lru/lru_cache.rs:525-537 | reading the tail sentinel's `prev` node returns what `Lru.PeekLast` returns |
| LinkedLru.Contains | lru/src/lru/lru_cache.rs:539-545 | `contains_key` on the map answers as `Lru.Contains` |
| LinkedLru.PromoteRefines | lru/src/lru/lru_cache.rs:595-605 | `promote` keeps the structure well formed and is `Lru.Promote` on the view |
| LinkedLru.DemoteRefines | lru/src/lru/lru_cache.rs:607-617 | `demote` keeps the structure well formed and is `Lru.Demote` on the view |
| LinkedLru.GetRefines | lru/src/lru/lru_cache.rs:417-432 | `get` keeps the structure well formed, is `Lru.Get` on the view and returns the same value |
| LinkedLru.GetMutRefines | lru/src/lru/lru_cache.rs:434-449 | `get_mut` followed by the write keeps the structure well formed, is `Lru.GetMut` on the view and returns the same value |
| LinkedLru.PeekMutRefines | lru/src/lru/lru_cache.rs:515-523 | the write through `peek_mut` keeps the order of identifiers, is `Lru.PeekMut` on the view and returns the same value |
| LinkedLru.ReplaceOrCreateNode | lru/src/lru/lru_cache.rs:283-310 | leaves a well-formed structure over the kept nodes with room for one more. It hands back an unlisted item node holding `k` and `v` |
| LinkedLru.Recycle | lru/src/lru/lru_cache.rs:284-307 | in a full cache, the tail node leaves the map. Its old pair is read out and returned, the new pair written in, and the node detached. Every other node keeps its payload |
| LinkedLru.Evicted | lru/src/lru/lru_cache.rs:284-307 | recycling leaves every other listed node in order, with the same entries, and returns the last entry |
| LinkedLru.Allocated | lru/src/lru/lru_cache.rs:308-309 | a freshly allocated node is none of the listed ones and leaves their entries alone |
| LinkedLru.Enter | lru/src/lru/lru_cache.rs:337-342 | attaching the handed-back node and inserting its key into the map puts its entry at the head of the list |
| LinkedLru.ReplaceOrCreateNodeRefines | lru/src/lru/lru_cache.rs:283-310 | the kept nodes stand for what `Lru.ReplaceOrCreateNode` leaves, and the same pair is handed back |
| LinkedLru.CapturingPutRefines | lru/src/lru/lru_cache.rs:315-347 | `capturing_put` keeps the structure well formed, is `Lru.CapturingPut` on the view and returns the same result |
| LinkedLru.PutRefines | lru/src/lru/lru_cache.rs:413 | `put` keeps the structure well formed, is `Lru.Put` on the view and returns the same result |
| LinkedLru.PushRefines | lru/src/lru/lru_cache.rs:415 | `push` keeps the structure well formed, is `Lru.Push` on the view and returns the same result |
| LinkedLru.FetchRepresents | lru/src/lru/lru_cache.rs:455-472 | the node `get_or_insert` settles on heads the list, holds `k`, and the view is `Lru.GetOrInsert`'s cache |
| LinkedLru.GetOrInsertRefines | lru/src/lru/lru_cache.rs:451-476 | `get_or_insert` keeps the structure well formed, is `Lru.GetOrInsert` on the view and returns the same value |
| LinkedLru.GetOrInsertMutRefines | lru/src/lru/lru_cache.rs:478-503 | `get_or_insert_mut` followed by the write keeps the structure well formed, is `Lru.GetOrInsertMut` on the view and returns the same value |
| LinkedLru.UnlinkedRepresents | lru/src/lru/lru_cache.rs:552-561 | removing a key from the map and detaching and freeing its node leaves a well-formed structure. Its list is the old one without exactly that entry |
| LinkedLru.PopRefines | lru/src/lru/lru_cache.rs:547-568 | `pop` keeps the structure well formed, is `Lru.Pop` on the view and returns the same value |
| LinkedLru.PopEntryRefines | lru/src/lru/lru_cache.rs:570-585 | `pop_entry` keeps the structure well formed, is `Lru.PopEntry` on the view and returns the same pair |
| LinkedLru.PopLast | lru/src/lru/lru_cache.rs:254-270 | `detach_last` returns `None` exactly when the list is empty, and then leaves the structure as it was |
| LinkedLru.PopLastRefines | lru/src/lru/lru_cache.rs:587-593 | `pop_last` keeps the structure well formed, is `Lru.PopLast` on the view and returns the same pair |
| LinkedLru.PopLastStep | lru/src/lru/lru_cache.rs:258-266 | on a non-empty list, `detach_last` drops exactly the last node and its entry |
| LinkedLru.Resize | lru/src/lru/lru_cache.rs:619-630 | keeps the structure well formed, keeps the `min(len, cap)` most recent entries and takes the new capacity. The same capacity returns the structure untouched |
| LinkedLru.Shrink | lru/src/lru/lru_cache.rs:624-626 | `pop_last` while the map holds more than `cap` keys leaves the first `min(len, cap)` entries |
| LinkedLru.Clear | lru/src/lru/lru_cache.rs:632 | `pop_last` until `None` leaves a well-formed structure with an empty list and an empty map, at the same capacity |
| LinkedLru.Walk | lru/src/lru/lru_cache.rs:366-373 | following `next` links from the head for `len` steps yields exactly the view's entries, most recently used first |
| LinkedLru.WalkBack | lru/src/lru/lru_cache.rs:82-94 | following `prev` links from the tail for `len` steps yields the view's entries in reverse |

## Left out

- The HTTP layer, configuration and server start-up (`lru/src/http/*`, `lru/src/lib.rs`, `lru/bin/axum_server.rs`) are not part of this model. They are I/O, concurrency (`RwLock`, `Arc`) and library wrappers. They also call an `LRUCache::storage` constructor that the cache file does not define.
- The repository's description also covers a timer-driven latency tracker, a cache-aside simulation and a load generator. Their source is not part of this model; they are timing and concurrency anyway.
- `lru/src/lru/item_size.rs` is not part of this model: nothing in the cache uses it, and it depends on platform layout.
- Hashing: `with_hasher`, `unbounded_with_hasher` and `HashMap::shrink_to_fit` in `resize`. The hash map is a Dafny `map`; hashing cannot be seen and does not change behaviour.
- `KeyRef` and its `Borrow` impls. Lookups take a `K`, not a borrowed form of it. Keys equal under `Eq` are identical in the model, so the model cannot tell which of two equal keys is kept: Rust keeps the stored key and returns the caller's.
- Raw-pointer mechanics: `MaybeUninit`, `Box::into_raw`/`from_raw`, `Drop` and the drop-count and memory-leak tests.
  - A node identifier stands for a pointer.
  - Allocation hands out a fresh identifier and never reuses a freed one, where Rust may reuse an address.
  - A sentinel's null link is never followed; the sentinel's own identifier stands in for it.
- `unwrap` on `map.remove` in `replace_or_create_node` and `detach_last` can never fail. The linked model proves the tail node is in the map, so no panic path is modelled.
- `iter_mut` and `IterMut`: writing through the iterator is not modelled. Read-only iteration is `LruIter` and `LinkedLru.Walk`/`WalkBack`.
- `Iter::clone`, `size_hint` and `count` are not modelled. The last two return `len`, which `LruIter.IterLen` is.
- `fmt::Debug`, and the `Send`/`Sync` impls and their test.
- `get_or_insert` and `get_or_insert_mut` call the default-producing closure only on a miss. The model passes the default value itself, so a closure's side effects are not modelled.
- Integer width: lengths are unbounded naturals, and the capacity is bounded by `usize::MAX` through `Lru.Capacity`. The map's length can never exceed the capacity, so no `usize` overflow arises.
