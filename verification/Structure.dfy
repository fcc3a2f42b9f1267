/** What the validity of the store says about any one chunk, any one class and the map, without its ghost predicates. */
module Structure {
  import opened Layout
  import opened CacheSpec
  import opened Items
  import opened SlabClasses
  import opened Slabs
  import opened HashIndex
  import opened Lru
  import opened Pictures
  import opened ItemStore
  import opened Bytes

  /** The places of x in a table of lists: list and position. */
  ghost function Places(ss: seq<seq<BaseItem>>, x: BaseItem): set<(nat, nat)> {
    set c: nat, i: nat | c < |ss| && i < |ss[c]| && ss[c][i] == x :: (c, i)
  }

  lemma OnePlace(ss: seq<seq<BaseItem>>, x: BaseItem, c: nat)
    requires c < |ss| && x in ss[c] && Distinct(ss[c])
    requires forall d :: 0 <= d < |ss| && d != c ==> x !in ss[d]
    ensures |Places(ss, x)| == 1
  {
    var i :| 0 <= i < |ss[c]| && ss[c][i] == x;
    assert Places(ss, x) == {(c, i)};
  }

  lemma NoPlace(ss: seq<seq<BaseItem>>, x: BaseItem)
    requires forall d :: 0 <= d < |ss| ==> x !in ss[d]
    ensures |Places(ss, x)| == 0
  {
    assert Places(ss, x) == {};
  }

  lemma OnFreeList(store: LruList, x: BaseItem)
    requires store.Valid() && x in store.slab.chunks
    ensures |Places(store.slab.free, x)| == if store.Handed(x) then 0 else 1
  {
    hide HashTable.Valid, LruQueues.Valid, ItemsOk, MemoryOk, GoodTable, FreeList;
    var s := store.slab;
    forall c | 0 <= c < |s.free| && x in s.free[c] ensures c == x.home && !store.Handed(x) {
      ClassAt(s.geo, s.memBase, s.free, s.out, s.chunks, c);
    }
    if store.Handed(x) {
      NoPlace(s.free, x);
    } else {
      ClassAt(s.geo, s.memBase, s.free, s.out, s.chunks, x.home);
      OnePlace(s.free, x, x.home);
    }
  }

  lemma OnChain(store: LruList, x: BaseItem)
    requires store.Valid()
    ensures |Places(store.table.chains, x)| == if x in store.table.keyOf then 1 else 0
    ensures x in store.table.keyOf ==>
              store.table.bucketOf(x.key) < |store.table.chains| && x in store.table.chains[store.table.bucketOf(x.key)]
  {
    hide Slab.Valid, LruQueues.Valid, ItemsOk, Cross;
    var t := store.table;
    if x in t.keyOf {
      var b := t.bucketOf(x.key);
      assert Chain(t.chains[b]);
      OnePlace(t.chains, x, b);
    } else {
      NoPlace(t.chains, x);
    }
  }

  lemma OnQueue(store: LruList, x: BaseItem)
    requires store.Valid()
    ensures |Places(store.queues.lists, x)| == if x in store.table.keyOf then 1 else 0
    ensures x in store.table.keyOf ==> x.clsid < |store.queues.lists| && x in store.queues.lists[x.clsid]
  {
    hide Slab.Valid, HashTable.Valid, ItemsOk;
    var q := store.queues;
    QueueFacts(q);
    if x in store.table.keyOf {
      var k := MemberAt(store.Now(), x);
      store.ReadyHere(x);
      OnePlace(q.lists, x, x.home);
    } else {
      NoPlace(q.lists, x);
    }
  }

  /**
   * Where a chunk is. It lies on exactly one free list or is handed out; it is on exactly one chain and exactly one LRU
   * list if it is linked, the chain being that of its key and the list that of its class, and on none otherwise; and no
   * linked item is on a free list, although free lists and LRU lists use the same pointers.
   */
  lemma WhereIs(store: LruList, x: BaseItem)
    requires store.Valid() && x in store.slab.chunks
    ensures |Places(store.slab.free, x)| == if store.Handed(x) then 0 else 1
    ensures |Places(store.table.chains, x)| == if x in store.table.keyOf then 1 else 0
    ensures |Places(store.queues.lists, x)| == if x in store.table.keyOf then 1 else 0
    ensures x in store.table.keyOf ==> x in store.ready && store.Handed(x)
    ensures x in store.ready ==> (x.flag.linked <==> x in store.table.keyOf)
    ensures x in store.table.keyOf ==>
              && store.table.bucketOf(x.key) < |store.table.chains|
              && x in store.table.chains[store.table.bucketOf(x.key)]
              && x.clsid < |store.queues.lists| && x in store.queues.lists[x.clsid]
  {
    hide LruList.Valid;
    OnFreeList(store, x);
    OnChain(store, x);
    OnQueue(store, x);
    store.KeysInChunks();
    if x in store.ready { store.ReadyHere(x); }
  }

  /** The counters are true: hashitems of the index, the size of each LRU list, the length of each free list. */
  lemma CountersAreTrue(store: LruList, c: nat)
    requires store.Valid() && c < |store.slab.geo|
    ensures store.table.hashitems == |store.table.keyOf|
    ensures c < |store.queues.sizes| && store.queues.sizes[c] == |store.queues.lists[c]|
    ensures var m, s := store.slab.memBase, store.slab;
            && c < |m| && m[c].slCurr == |s.free[c]|
            && m[c].slCurr + |s.out[c]| == m[c].slabs * s.geo[c].perslab
            && m[c].slabs <= m[c].listSize && ListSizeOk(m[c].listSize)
            && m[c].requested == Sum(s.out[c])
  {
    hide ItemsOk, GoodTable, Cross, ChainsOk;
    var s := store.slab;
    assert ClassOk(c, s.geo[c], s.memBase[c], s.free[c], s.out[c]);
    EndsAt(store.queues.heads, store.queues.tails, store.queues.sizes, store.queues.lists, c);
  }

  /** Every chunk of a page lies at the page and slot its address says, and at no other. */
  lemma ChunkAddress(store: LruList, c: nat, p: nat, i: nat, x: BaseItem)
    requires store.Valid() && x in store.slab.chunks
    requires c < |store.slab.memBase| && p < |store.slab.memBase[c].slabList| && i < |store.slab.memBase[c].slabList[p]|
    ensures store.slab.memBase[c].slabList[p][i] == x <==> c == x.home && p == x.page && i == x.slot
    ensures x.home < |store.slab.memBase| && x.page < store.slab.memBase[x.home].slabs
    ensures x.slot < store.slab.geo[x.home].perslab
  {
    hide HashTable.Valid, LruQueues.Valid, ItemsOk, GoodTable, Cross, FreeList, MemoryOk;
    var s := store.slab;
    assert ClassOk(c, s.geo[c], s.memBase[c], s.free[c], s.out[c]);
    assert ClassOk(x.home, s.geo[x.home], s.memBase[x.home], s.free[x.home], s.out[x.home]);
    assert InPage(x.home, s.memBase[x.home].slabList, x);
  }

  ghost function SizesOf(xs: set<BaseItem>): map<BaseItem, nat>
    reads xs
  {
    map x | x in xs :: ItemTotal(x.key, x.value)
  }

  lemma OutAt(store: LruList, c: nat)
    requires store.Valid() && c < |store.slab.out|
    ensures forall x :: x in store.slab.out[c] ==> x in store.slab.chunks && x.home == c
  {
    hide HashTable.Valid, LruQueues.Valid, ItemsOk, Cross;
    OutInChunks(store.slab);
  }

  /** Once every chunk a class has handed out is filled in, `requested` is the sum of the sizes of those items. */
  lemma RequestedIsTheItems(store: LruList, c: nat)
    requires store.Valid() && c < |store.slab.geo| && c < |store.slab.out|
    requires forall x :: x in store.slab.out[c] ==> x in store.ready
    ensures c < |store.slab.memBase|
    ensures store.slab.memBase[c].requested == Sum(SizesOf(store.slab.out[c].Keys))
  {
    hide LruList.Valid;
    CountersAreTrue(store, c);
    OutAt(store, c);
    forall x | x in store.slab.out[c] ensures store.slab.out[c][x] == ItemTotal(x.key, x.value) {
      store.ReadyHere(x);
    }
    assert store.slab.out[c] == SizesOf(store.slab.out[c].Keys);
  }

  /**
   * No chunk handed out is charged more than it holds, and the header, key, separator and value of every filled item
   * fit into its chunk.
   */
  lemma ItemsFit(store: LruList, x: BaseItem)
    requires store.Valid() && store.Handed(x)
    ensures x.home < |store.slab.geo| && store.slab.out[x.home][x] <= store.slab.geo[x.home].size
    ensures x in store.ready ==> ItemTotal(x.key, x.value) <= store.slab.geo[x.home].size
  {
    hide Slab.Valid, HashTable.Valid, LruQueues.Valid, ItemsOk;
    if x in store.ready { store.ReadyFits(x); }
  }

  /**
   * The bytes of an item that an append or prepend has built: copied into the rest of its chunk, they never pass its
   * end, because the item was given a chunk of a class that holds them.
   */
  method WriteJoined(store: LruList, x: BaseItem, cmd: Cmd, prior: Blob, add: Blob) returns (data: array<byte>)
    requires store.Valid() && x in store.ready && x.value == Join(cmd, prior, add)
    requires Joins(cmd) && |prior| >= 2 && |add| >= 2
    ensures fresh(data) && x.home < |store.slab.geo| && HEADER + data.Length == store.slab.geo[x.home].size
    ensures Holds(data[..], x.key, x.value)
  {
    hide LruList.Valid, Join, Holds;
    store.ReadyFits(x);
    data := new byte[store.slab.geo[x.home].size - HEADER];
    CopyJoined(data, x.key, cmd, prior, add);
  }

  /** Memory: the counter is the sum of all pages, and a nonzero limit is passed by at most one page for each class. */
  lemma MemoryIsBounded(store: LruList)
    requires store.Valid()
    ensures |store.slab.geo| == |store.slab.pages|
    ensures store.slab.memMalloced == Malloced(store.slab.geo, store.slab.pages)
    ensures store.slab.memLimit > 0 ==>
              store.slab.memMalloced <= store.slab.memLimit + OnePageEach(store.slab.geo, store.slab.pages)
  {
    hide HashTable.Valid, LruQueues.Valid, ItemsOk, Cross, GoodTable, TableOk;
  }

  /** References: a filled item counts its link, what clients hold and what they have leaked, and nothing else. */
  lemma ReferencesAreCounted(store: LruList, x: BaseItem)
    requires store.Valid() && x in store.ready
    ensures x.refcount == (if x.flag.linked then 1 else 0) + x.handles + x.leaks
    ensures x.leaks > 0 ==> x.refcount > (if x.flag.linked then 1 else 0)
  {
    hide LruList.Valid;
    store.ReadyHere(x);
  }

  lemma IdsDiffer(store: LruList)
    requires store.Valid()
    ensures forall x, y :: x in store.table.keyOf && y in store.table.keyOf && x.cas == y.cas ==> x == y
  {
    hide Slab.Valid, HashTable.Valid, LruQueues.Valid, Cross;
    assert forall x :: x in store.table.keyOf ==> x in store.Now().members;
  }

  /** The map a valid store stands for is sound: ids are distinct, nonzero and all handed out. */
  lemma MapIsSound(store: LruList)
    requires store.Valid()
    ensures Injective(store.table.keyOf) && Sound(store.Abs())
  {
    hide LruList.Valid, ViewOf;
    store.KeysInChunks();
    store.ClassTable();
    IdsDiffer(store);
    var v := store.Abs().view;
    forall k | k in v
      ensures exists x ::
                x in store.table.keyOf && store.table.keyOf[x] == k && v[k].cas == x.cas && 1 <= x.cas <= store.casId
    {
      var x :| x in store.table.keyOf && store.table.keyOf[x] == k;
      store.ReadyHere(x);
    }
  }

  /**
   * Each LRU list is sorted by the time of the last link or bump, newest first, and its pointers are mutually
   * inverse.
   */
  lemma QueuesAreSorted(store: LruList, c: nat, i: nat, j: nat)
    requires store.Valid() && c < |store.queues.lists| && i < j < |store.queues.lists[c]|
    ensures store.queues.lists[c][i].realtime >= store.queues.lists[c][j].realtime
    ensures store.queues.lists[c][i] != store.queues.lists[c][j]
    ensures j == i + 1 ==>
              && store.queues.lists[c][i].next == store.queues.lists[c][j]
              && store.queues.lists[c][j].prev == store.queues.lists[c][i]
  {
    hide Slab.Valid, HashTable.Valid, ItemsOk, Cross, EndsOk;
    assert Queue(store.queues.lists[c]);
  }
}
