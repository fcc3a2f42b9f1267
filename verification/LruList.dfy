/** The life of an item: allocated, filled, linked, found, bumped, unlinked, released, freed, evicted. */
module ItemStore {
  import opened Layout
  import opened CacheSpec
  import opened Items
  import opened SlabClasses
  import opened Slabs
  import opened HashIndex
  import opened Lru
  import opened Pictures

  class LruList {
    const slab: Slab
    const table: HashTable
    const queues: LruQueues
    var casId: nat                      // the static counter of get_cas_id
    ghost var clock: nat                // the latest time seen
    ghost var ready: set<BaseItem>      // filled items with a flag byte that can be linked

    ghost function Now(): Picture
      reads this, slab, table, queues
    {
      Picture(ChunkSizes(slab.geo), slab.chunks, slab.out, table.keyOf.Keys, queues.lists, ready, casId, clock)
    }

    ghost predicate Valid()
      reads this, slab, table, queues, slab.chunks
    {
      && slab.Valid() && |slab.out| == |slab.geo|
      && Cross(Now()) && queues.Nodes() <= slab.chunks
      && table.Valid() && queues.Valid()
      && ItemsOk(Now())
    }

    lemma Starts()
      requires slab.Valid() && table.Valid() && queues.Valid()
      requires slab.chunks == {} && table.keyOf == map[] && ready == {}
      requires |queues.lists| == POWER_LARGEST && forall c :: 0 <= c < |queues.lists| ==> queues.lists[c] == []
      ensures Valid()
    {
      hide Slab.Valid, HashTable.Valid, LruQueues.Valid, Cross, ItemsOk, GoodTable;
      SlabFits(slab);
      OutInChunks(slab);
      forall c {:trigger slab.out[c]} | 0 <= c < |slab.out| ensures slab.out[c] == map[] {
        assert slab.out[c].Keys <= slab.chunks;
      }
      NothingStored(Now());
      NodesIn(Now(), queues);
    }

    constructor (limit: nat, chunkSize: nat, itemSizeMax: nat, bucketOf: Key -> nat, buckets: nat)
      requires HEADER + chunkSize < UINT32 && itemSizeMax < UINT32 - 16
      requires forall k :: bucketOf(k) < buckets
      ensures Valid() && table.keyOf == map[] && casId == 0 && clock == 0 && ready == {} && slab.chunks == {}
      ensures fresh(slab) && fresh(table) && fresh(queues) && table.bucketOf == bucketOf && slab.memLimit == limit
      ensures slab.geo[slab.powerLargest].size == itemSizeMax
      ensures forall c {:trigger slab.pages[c]} :: 0 <= c < |slab.pages| ==> slab.pages[c] == 0
      ensures forall c {:trigger slab.out[c]} :: 0 <= c < |slab.out| ==> slab.out[c] == map[]
    {
      slab := new Slab(limit, chunkSize, itemSizeMax);
      table := new HashTable(bucketOf, buckets);
      queues := new LruQueues();
      casId, clock, ready := 0, 0, {};
      new;
      hide Slab.Valid, HashTable.Valid, LruQueues.Valid, LruList.Valid;
      slab.Sizes();
      Starts();
    }

    /** The store as a map, and the last id handed out. */
    ghost function Abs(): State
      requires Injective(table.keyOf)
      reads this, table, table.keyOf.Keys
    {
      State(ViewOf(table.keyOf), casId)
    }

    /** The chunk is handed out. */
    ghost predicate Handed(it: BaseItem)
      reads slab
    {
      it in slab.chunks && it.home < |slab.out| && it in slab.out[it.home]
    }

    /** All that is said of an item outside the links: its fields, and whether it is filled and handed out. */
    ghost function InfoOf(x: BaseItem): Info
      reads this, slab, x
    {
      Info(ScalarsOf(x), x.exptime, x in ready, Handed(x))
    }

    /** What an operation on one key leaves of any other item. */
    twostate predicate Untouched(x: BaseItem)
      reads this, slab, x
    {
      InfoOf(x) == old(InfoOf(x))
    }

    twostate lemma StillThere(x: BaseItem)
      requires Untouched(x)
      ensures (x in ready <==> x in old(ready)) && (Handed(x) <==> old(Handed(x)))
      ensures x.handles == old(x.handles) && x.refcount == old(x.refcount) && x.flag == old(x.flag)
      ensures x.exptime == old(x.exptime) && x.leaks == old(x.leaks) && x.realtime == old(x.realtime)
    {
    }

    ghost function HandedOut(): set<BaseItem>
      reads slab
    {
      set x | x in slab.chunks && Handed(x)
    }

    /** No chunk but, perhaps, this one has been handed out since. */
    twostate predicate OneAtMost(new it: BaseItem?)
      reads slab
    {
      HandedOut() <= old(HandedOut()) + Only(it)
    }

    /** Chunks that have only come back. */
    twostate lemma NoneHanded()
      requires slab.chunks == old(slab.chunks) && |slab.out| == |old(slab.out)|
      requires forall c {:trigger slab.out[c]} :: 0 <= c < |slab.out| ==> slab.out[c].Keys <= old(slab.out)[c].Keys
      ensures OneAtMost(null)
    {
    }

    /** Nothing has happened yet. */
    twostate lemma StartsStill()
      requires slab.chunks == old(slab.chunks) && slab.out == old(slab.out) && slab.Mem() == old(slab.Mem())
      ensures slab.Growth() && OneAtMost(null) && old(HandedOut()) <= HandedOut()
    {
    }

    twostate lemma Took(new it: BaseItem?)
      requires OneAtMost(it)
      ensures HandedOut() <= old(HandedOut()) + Only(it)
    {
      hide LruList.HandedOut;
    }

    twostate lemma HandsOn(new handed: set<BaseItem>, new it: BaseItem?)
      requires handed <= old(HandedOut()) + Only(it) && HandedOut() <= handed
      ensures OneAtMost(it)
    {
    }

    twostate lemma HandsAdd(new handed: set<BaseItem>, new it: BaseItem?)
      requires handed <= old(HandedOut()) && HandedOut() <= handed + Only(it)
      ensures OneAtMost(it)
    {
    }

    /** The chunk was not handed out before. */
    twostate predicate Unheld(new x: BaseItem) {
      x !in old(HandedOut())
    }

    /** One write to the scalar fields of a handed-out item, keeping the reference count of a ready item in balance. */
    method SetMeta(it: BaseItem, refcount: nat, flag: ItemFlag, exptime: nat, ghost handles: nat, ghost leaks: nat)
      requires Valid() && Handed(it)
      requires it in ready ==>
                 && !flag.slabbed && flag.linked == it.flag.linked
                 && refcount == (if flag.linked then 1 else 0) + handles + leaks
      modifies it`refcount, it`flag, it`exptime, it`handles, it`leaks
      ensures Valid()
      ensures it.refcount == refcount && it.flag == flag && it.exptime == exptime
      ensures it.handles == handles && it.leaks == leaks
    {
      hide Change.Local, Slab.Valid, HashTable.Valid, LruQueues.Valid, Cross, ItemsOk, ScalarsOf;
      HandedApart(slab, it);
      ItemAt(Now(), it);
      SameLocal(Now(), it);
      it.refcount, it.flag, it.exptime := refcount, flag, exptime;
      it.handles, it.leaks := handles, leaks;
      SlabSees(slab);
      TableSees(table);
      QueuesSee(queues);
      ItemsKept(Change(old(Now()), Now(), it));
    }

    /** The nodes of chains and lists are linked, those of free lists are not even ready, and all are chunks. */
    lemma Apart()
      requires Valid()
      ensures table.keyOf.Keys <= ready <= slab.chunks && Injective(table.keyOf)
      ensures |slab.memBase| == |slab.free| == |slab.out| == |slab.geo| <= |queues.lists| == POWER_LARGEST
      ensures forall c, i {:trigger slab.free[c][i]} ::
                  0 <= c < |slab.free| && 0 <= i < |slab.free[c]| ==> slab.free[c][i] !in ready
      ensures forall c, x :: 0 <= c < |slab.free| && x in slab.free[c] ==> x in slab.chunks && x !in ready
      ensures forall b, i {:trigger table.chains[b][i]} ::
                  0 <= b < |table.chains| && 0 <= i < |table.chains[b]| ==> table.chains[b][i] in table.keyOf
      ensures forall c, i {:trigger queues.lists[c][i]} ::
                  0 <= c < |queues.lists| && 0 <= i < |queues.lists[c]| ==> queues.lists[c][i] in table.keyOf
    {
      hide Slab.Valid, HashTable.Valid, LruQueues.Valid, ItemsOk;
      FreeApart(slab, Now());
      ChainsApart(table);
      forall c, i {:trigger queues.lists[c][i]} | 0 <= c < |queues.lists| && 0 <= i < |queues.lists[c]|
        ensures queues.lists[c][i] in table.keyOf
      {
        assert queues.lists[c][i] in queues.lists[c];
      }
    }

    lemma KeysInChunks()
      requires Valid()
      ensures table.keyOf.Keys <= ready <= slab.chunks
    {
      hide Slab.Valid, HashTable.Valid, LruQueues.Valid, ItemsOk;
    }

    /** The tail of a list. */
    lemma TailHere(id: nat)
      requires Valid() && id < |slab.memBase|
      ensures id < |queues.lists| == |queues.tails| && queues.tails[id] == At(queues.lists[id], |queues.lists[id]| - 1)
    {
      hide Slab.Valid, HashTable.Valid, Cross, ItemsOk;
      Apart();
      EndsAt(queues.heads, queues.tails, queues.sizes, queues.lists, id);
    }

    /** A node of a list: a linked item of that class, whose prev is the node before it. */
    lemma NodeHere(id: nat, pos: nat)
      requires Valid() && id < |queues.lists| && pos < |queues.lists[id]|
      ensures var x := queues.lists[id][pos];
              && x in table.keyOf && x in ready && x in slab.chunks && x.home == id
              && x.prev == At(queues.lists[id], pos - 1)
              && table.keyOf[x] == x.key && Distinct(queues.lists[id])
    {
      hide Slab.Valid, ItemsOk, EndsOk, ChainsOk;
      var s := queues.lists[id];
      assert Queue(s);
      EndsAt(queues.heads, queues.tails, queues.sizes, queues.lists, id);
      assert s[pos] in s;
      Apart();
    }

    /** Before anything is stored no chain and no list has a node. */
    lemma Bare()
      requires Valid() && table.keyOf == map[]
      ensures forall b {:trigger table.chains[b]} :: 0 <= b < |table.chains| ==> table.chains[b] == []
      ensures forall c {:trigger queues.lists[c]} :: 0 <= c < |queues.lists| ==> queues.lists[c] == []
      ensures |queues.lists| == POWER_LARGEST && 0 < |slab.out| <= POWER_LARGEST
    {
      hide Slab.Valid, HashTable.Valid, LruQueues.Valid, ItemsOk;
      Apart();
      forall c {:trigger queues.lists[c]} | 0 <= c < |queues.lists| ensures queues.lists[c] == [] {
        NoneWithout(queues.lists[c], table.keyOf.Keys);
      }
      forall b {:trigger table.chains[b]} | 0 <= b < |table.chains| ensures table.chains[b] == [] {
        NoneWithout(table.chains[b], table.keyOf.Keys);
      }
    }

    /** With free chunks only, everything is in order. */
    lemma StillBare()
      requires slab.Valid() && table.Valid() && queues.Valid() && table.keyOf == map[] && ready == {}
      requires |queues.lists| == POWER_LARGEST
      requires forall c {:trigger queues.lists[c]} :: 0 <= c < |queues.lists| ==> queues.lists[c] == []
      requires 0 < |slab.out| == |slab.geo| <= POWER_LARGEST
      requires forall c {:trigger slab.out[c]} :: 0 <= c < |slab.out| ==> slab.out[c] == map[]
      ensures Valid()
    {
      hide Slab.Valid, HashTable.Valid, LruQueues.Valid;
      NodesIn(Now(), queues);
    }

    /**
     * The end of the allocator's constructor, slabs_preallocate: free chunks are no business of index, lists or map.
     */
    method Preallocate(maxslabs: nat, reallocOk: nat -> bool, mallocOk: nat -> bool) returns (ok: bool)
      requires Valid() && table.keyOf == map[] && ready == {} && slab.chunks == {}
      requires forall c {:trigger slab.pages[c]} :: 0 <= c < |slab.pages| ==> slab.pages[c] == 0
      requires forall c {:trigger slab.out[c]} :: 0 <= c < |slab.out| ==> slab.out[c] == map[]
      modifies slab, slab.chunks
      ensures Valid() && fresh(slab.chunks) && |slab.pages| == slab.powerLargest + 1
      ensures slab.powerLargest < POWER_LARGEST
      ensures ok ==> forall c {:trigger slab.pages[c]} :: 0 <= c < |slab.pages| ==>
                slab.pages[c] == if 1 <= c < slab.powerLargest && c <= maxslabs then 1 else 0
      ensures (forall c :: reallocOk(c) && mallocOk(c)) && slab.geo[slab.powerLargest].size < INT32 ==> ok
    {
      hide Slab.Valid, HashTable.Valid, LruQueues.Valid, Cross, ItemsOk;
      Bare();
      ok := slab.SlabsPreallocate(maxslabs, reallocOk, mallocOk);
      TableSees(table);
      QueuesSee(queues);
      SlabFits(slab);
      StillBare();
    }

    /** Other items have not noticed if their fields, their readiness and their class's record of them are the same. */
    twostate lemma OthersSame(new it: BaseItem)
      requires old(slab.chunks) <= slab.chunks && |slab.out| == |old(slab.out)|
      requires forall x {:trigger x in slab.chunks} :: x in slab.chunks && x in old(slab.chunks) && x != it ==>
                 ScalarsOf(x) == old(ScalarsOf(x)) && x.exptime == old(x.exptime)
      requires ready - {it} == old(ready) - {it}
      requires forall c {:trigger slab.out[c]} :: 0 <= c < |slab.out| ==>
                 slab.out[c].Keys - {it} == old(slab.out)[c].Keys - {it}
      ensures forall x {:trigger x in slab.chunks} ::
                  x in slab.chunks && x in old(slab.chunks) && x != it ==> Untouched(x)
    {
      hide ScalarsOf;
      forall x | x in slab.chunks && x in old(slab.chunks) && x != it ensures Untouched(x) {
        assert x in ready <==> x in ready - {it};
        assert x in old(ready) <==> x in old(ready) - {it};
        if x.home < |slab.out| {
          assert x in slab.out[x.home] <==> x in slab.out[x.home].Keys - {it};
          assert x in old(slab.out)[x.home] <==> x in old(slab.out)[x.home].Keys - {it};
        }
      }
    }

    twostate lemma NoneChanged()
      requires slab.chunks == old(slab.chunks) && slab.out == old(slab.out) && ready == old(ready)
      requires forall x {:trigger x in slab.chunks} :: x in slab.chunks ==>
                 ScalarsOf(x) == old(ScalarsOf(x)) && x.exptime == old(x.exptime)
      ensures forall x {:trigger x in slab.chunks} :: x in slab.chunks ==> Untouched(x)
    {
      hide ScalarsOf;
    }

    /** The end of item_free: the class is taken off the item and its chunk goes on the free list. */
    method GiveBack(it: BaseItem, ntotal: nat)
      requires Valid() && it in ready && !it.flag.linked && it.refcount == 0 && ntotal == ItemTotal(it.key, it.value)
      modifies this`ready, slab`memBase, slab`free, slab`out, it`clsid, it`flag, slab.chunks`next, slab.chunks`prev
      ensures Valid() && slab.chunks == old(slab.chunks)
      ensures ready == old(ready) - {it}
      ensures slab.NoPoorer() && OneAtMost(null)
      ensures forall x {:trigger x in slab.chunks} :: x in slab.chunks && x != it ==> Untouched(x)
      ensures it.home < |old(slab.out)| && slab.out == old(slab.out)[it.home := old(slab.out[it.home]) - {it}]
      ensures it.home < |old(slab.free)| && slab.free == old(slab.free)[it.home := [it] + old(slab.free[it.home])]
    {
      hide LruList.InfoOf, LruList.Untouched;
      hide Change.Local, Slab.Valid, HashTable.Valid, LruQueues.Valid, Cross, ItemsOk;
      ghost var p := Now();
      ReadyAt(p, it);
      Apart();
      FreedCross(p, it);
      var clsid := it.clsid;
      it.clsid := 0;
      SlabSees(slab);
      slab.SlabsFree(it, ntotal, clsid);
      ready := ready - {it};
      TableSees(table);
      QueuesSee(queues);
      assert Now() == Freed(p, it);
      ItemsKept(Change(p, Now(), it));
      OthersSame(it);
    }

    /** An item that is not linked is neither head nor tail of any list. */
    lemma UnlinkedIsNoEnd(x: BaseItem, c: nat)
      requires queues.Valid() && Cross(Now()) && x !in table.keyOf && c < |queues.heads|
      ensures |queues.heads| == |queues.tails| && queues.heads[c] != x && queues.tails[c] != x
    {
      EndsAt(queues.heads, queues.tails, queues.sizes, queues.lists, c);
      assert forall i :: 0 <= i < |queues.lists[c]| ==> queues.lists[c][i] in queues.lists[c];
    }

    /** The class of a handed-out item has a list, and a ready item is an end of it only if it is linked. */
    lemma ClassIndex(it: BaseItem)
      requires Valid() && Handed(it)
      ensures it.clsid < |queues.heads| == |queues.tails|
      ensures it in ready && !it.flag.linked ==> it != queues.heads[it.clsid] && it != queues.tails[it.clsid]
    {
      hide Slab.Valid, HashTable.Valid;
      SlabFits(slab);
      ItemAt(Now(), it);
      if it in ready && !it.flag.linked { UnlinkedIsNoEnd(it, it.clsid); }
    }

    /**
     * item_free: an item that is neither linked nor referred to goes back to its class; anything else is refused. The
     * comparison with the ends of the list never decides: an item that is not linked is no end.
     */
    method ItemFree(it: BaseItem)
      requires Valid() && Handed(it) && (it in ready || it.flag.linked)
      modifies this`ready, slab`memBase, slab`free, slab`out, it`clsid, it`flag, slab.chunks`next, slab.chunks`prev
      ensures Valid()
      ensures old(it.flag.linked || it.refcount != 0) ==>
                && ready == old(ready) && slab.out == old(slab.out) && slab.free == old(slab.free)
                && it.flag == old(it.flag) && it.clsid == old(it.clsid)
      ensures !old(it.flag.linked || it.refcount != 0) ==>
                && ready == old(ready) - {it}
                && it.home < |old(slab.out)| && slab.out == old(slab.out)[it.home := old(slab.out[it.home]) - {it}]
                && it.home < |old(slab.free)| && slab.free == old(slab.free)[it.home := [it] + old(slab.free[it.home])]
      ensures slab.chunks == old(slab.chunks)
      ensures slab.NoPoorer() && OneAtMost(null)
      ensures forall x {:trigger x in slab.chunks} :: x in slab.chunks && x != it ==> Untouched(x)
    {
      hide Slab.Valid, HashTable.Valid, LruQueues.Valid, Cross, ItemsOk, LruList.InfoOf, LruList.HandedOut, Grew;
      ItemAt(Now(), it);
      ClassIndex(it);
      var ntotal := ItemTotal(it.key, it.value);
      if it.flag.linked || it == queues.heads[it.clsid] || it == queues.tails[it.clsid] || it.refcount != 0 { return; }
      GiveBack(it, ntotal);
    }

    /** hash_delete, with the flag cleared before it: the three structures stay in order, each for itself. */
    method LeaveTable(it: BaseItem)
      requires Valid() && it in table.keyOf
      modifies table, it`flag, it`handles, slab.chunks`hNext
      ensures slab.Valid() && table.Valid() && queues.Valid()
      ensures table.keyOf == old(table.keyOf) - {it}
      ensures it.flag == old(it.flag).(linked := false) && it.handles == old(it.handles) + 1
    {
      hide Slab.Valid, HashTable.Valid, LruQueues.Valid, Cross, ItemsOk, Drop;
      FreeApart(slab, Now());
      KeyFacts(table, it);
      it.flag := it.flag.(linked := false);
      it.handles := it.handles + 1;
      TableSees(table);
      ghost var at := table.HashDelete(it.key);
      QueuesSee(queues);
      SlabSees(slab);
    }

    /** item_unlink_q: the three structures stay in order, each for itself. */
    method LeaveQueue(it: BaseItem, ghost k: nat)
      requires slab.Valid() && table.Valid() && queues.Valid()
      requires it.clsid == it.home < |queues.lists| == POWER_LARGEST && k < |queues.lists[it.home]|
      requires queues.lists[it.home][k] == it
      requires !it.flag.slabbed
      requires forall x :: x in queues.lists[it.home] ==> x in slab.chunks
      requires forall c, i {:trigger slab.free[c][i]} :: 0 <= c < |slab.free| && 0 <= i < |slab.free[c]| ==>
                 slab.free[c][i] !in queues.lists[it.home]
      modifies queues, slab.chunks`next, slab.chunks`prev
      ensures slab.Valid() && table.Valid() && queues.Valid()
      ensures queues.lists == old(queues.lists)[it.home := Drop(old(queues.lists[it.home]), k)]
      ensures it.next == old(it.next) && it.prev == old(it.prev)
    {
      hide Slab.Valid, HashTable.Valid, LruQueues.Valid, Drop;
      queues.ItemUnlinkQ(it, k);
      TableSees(table);
      SlabSees(slab);
    }

    /** Items, lists and index still fit together once an item has left them. */
    twostate lemma Parted(it: BaseItem, new k: nat)
      requires old(Valid()) && slab.Valid() && table.Valid() && queues.Valid() && it in old(table.keyOf)
      requires it.home < |old(queues.lists)| && k < |old(queues.lists[it.home])|
      requires old(queues.lists[it.home])[k] == it
      requires Distinct(old(queues.lists[it.home]))
      requires forall c, x :: 0 <= c < |old(queues.lists)| && x in old(queues.lists)[c] ==> x.home == c
      requires table.keyOf == old(table.keyOf) - {it}
      requires queues.lists == old(queues.lists)[it.home := Drop(old(queues.lists[it.home]), k)]
      requires unchanged(slab) && ready == old(ready) && casId == old(casId) && clock == old(clock)
      requires forall x {:trigger x in slab.chunks} :: x in slab.chunks && x != it ==> ScalarsOf(x) == old(ScalarsOf(x))
      requires ScalarsOf(it) == old(ScalarsOf(it)).(flag := it.flag, handles := it.handles)
      requires it.flag == old(it.flag).(linked := false) && it.handles == old(it.handles) + 1
      ensures Valid()
    {
      hide Change.Local, Slab.Valid, HashTable.Valid, LruQueues.Valid, Cross, ItemsOk, Drop;
      ghost var p := old(Now());
      assert Now() == Detached(p, it, k);
      var at := MemberAt(p, it);
      WasReady(p, it);
      DetachedCross(p, it, k);
      NodesIn(Now(), queues);
      ItemsKept(Change(p, Now(), it));
    }

    /**
     * The heart of do_item_unlink: the flag goes, the item leaves its chain and its list. The reference the link held
     * is now the operation's own; do_item_remove follows.
     */
    method Detach(it: BaseItem) returns (ghost k: nat)
      requires Valid() && it in table.keyOf
      modifies table, queues, it`flag, it`handles, slab.chunks`hNext, slab.chunks`next, slab.chunks`prev
      ensures Valid() && table.keyOf == old(table.keyOf) - {it}
      ensures it.flag == old(it.flag).(linked := false) && it.handles == old(it.handles) + 1
      ensures it.home < |old(queues.lists)| && k < |old(queues.lists[it.home])| && old(queues.lists[it.home])[k] == it
      ensures queues.lists == old(queues.lists)[it.home := Drop(old(queues.lists[it.home]), k)]
      ensures it.next == old(it.next) && it.prev == old(it.prev)
      ensures forall x {:trigger x in slab.chunks} :: x in slab.chunks && x != it ==> Untouched(x)
    {
      hide LruList.InfoOf, LruList.Untouched;
      hide Change.Local, Slab.Valid, HashTable.Valid, LruQueues.Valid, Cross, ItemsOk, Drop, Detached, Distinct;
      ghost var p := Now();
      FreeApart(slab, p);
      k := MemberAt(p, it);
      ReadyAt(p, it);
      QueueFacts(queues);
      LeaveTable(it);
      LeaveQueue(it, k);
      Parted(it, k);
      OthersSame(it);
    }

    /**
     * do_item_remove: one reference less; the item is freed exactly when that was the last one, and then it is not
     * linked. (As written the count before the decrement is compared with 0: see RemoveAsWritten.)
     */
    method DoItemRemove(it: BaseItem)
      requires Valid() && Handed(it) && it.refcount > 0
      requires it in ready ==> it.handles > 0
      requires it in ready || it.flag.Dirty()
      modifies this`ready, slab`memBase, slab`free, slab`out, it`refcount, it`handles, it`leaks, it`exptime, it`clsid
      modifies it`flag, slab.chunks`next, slab.chunks`prev
      ensures Valid() && slab.chunks == old(slab.chunks)
      ensures it.exptime == old(it.exptime) && it.leaks == old(it.leaks)
      ensures slab.NoPoorer() && OneAtMost(null)
      ensures forall x {:trigger x in slab.chunks} :: x in slab.chunks && x != it ==> Untouched(x)
      ensures !(it in old(ready) && old(it.refcount) == 1) ==>
                && ready == old(ready) && slab.out == old(slab.out) && slab.free == old(slab.free)
                && it.flag == old(it.flag) && it.clsid == old(it.clsid)
                && it.refcount == (if old(it.flag.slabbed) then old(it.refcount) else old(it.refcount) - 1)
      ensures it in ready && old(it.refcount) != 1 ==> it.handles == old(it.handles) - 1
      ensures it in old(ready) && old(it.refcount) == 1 ==>
                && it !in table.keyOf && ready == old(ready) - {it}
                && it.home < |old(slab.out)| && slab.out == old(slab.out)[it.home := old(slab.out[it.home]) - {it}]
                && it.home < |old(slab.free)| && slab.free == old(slab.free)[it.home := [it] + old(slab.free[it.home])]
    {
      hide Slab.Valid, HashTable.Valid, LruQueues.Valid, Cross, ItemsOk, LruList.InfoOf, LruList.HandedOut, Grew;
      ItemAt(Now(), it);
      if it.flag.slabbed { return; }
      var last := it.refcount == 1;
      SetMeta(it, it.refcount - 1, it.flag, it.exptime,
              if it in ready then it.handles - 1 else it.handles, it.leaks);
      if last { ItemFree(it); }
    }

    /**
     * do_item_unlink and do_item_unlink_nolock: a linked item leaves the index and its list, and loses the reference
     * of the link; an item that is not linked is left alone.
     */
    method DoItemUnlink(it: BaseItem) returns (ghost k: nat)
      requires Valid() && it in ready
      modifies this`ready, table, queues, slab`memBase, slab`free, slab`out, it`refcount, it`handles, it`leaks
      modifies it`exptime, it`clsid, it`flag
      modifies slab.chunks`hNext, slab.chunks`next, slab.chunks`prev
      ensures Valid() && slab.chunks == old(slab.chunks) && table.keyOf == old(table.keyOf) - {it}
      ensures it !in old(table.keyOf) ==>
                && ready == old(ready) && slab.out == old(slab.out) && queues.lists == old(queues.lists)
                && it.refcount == old(it.refcount) && it.handles == old(it.handles) && it.flag == old(it.flag)
                && it.clsid == old(it.clsid)
      ensures it in old(table.keyOf) ==>
                && it.home < |old(queues.lists)| && k < |old(queues.lists[it.home])|
                && old(queues.lists[it.home])[k] == it
                && queues.lists == old(queues.lists)[it.home := Drop(old(queues.lists[it.home]), k)]
      ensures it in old(table.keyOf) && old(it.refcount) == 1 ==>
                && ready == old(ready) - {it}
                && it.home < |old(slab.out)| && slab.out == old(slab.out)[it.home := old(slab.out[it.home]) - {it}]
      ensures it in old(table.keyOf) && old(it.refcount) > 1 ==>
                && ready == old(ready) && slab.out == old(slab.out) && slab.free == old(slab.free)
                && it.refcount == old(it.refcount) - 1 && it.clsid == old(it.clsid)
                && it.flag == old(it.flag).(linked := false)
                && it.handles == old(it.handles)
      ensures it.exptime == old(it.exptime) && it.leaks == old(it.leaks)
      ensures slab.NoPoorer() && OneAtMost(null)
      ensures forall x {:trigger x in slab.chunks} :: x in slab.chunks && x != it ==> Untouched(x)
    {
      hide Slab.Valid, HashTable.Valid, LruQueues.Valid, Cross, ItemsOk, Drop, LruList.InfoOf, LruList.HandedOut, Grew;
      k := 0;
      ReadyAt(Now(), it);
      if it.flag.linked {
        k := Detach(it);
        DoItemRemove(it);
      }
    }

    /** hash_insert: the three structures stay in order, each for itself. */
    method EnterTable(it: BaseItem)
      requires slab.Valid() && table.Valid() && queues.Valid()
      requires it !in table.keyOf && forall x :: x in table.keyOf ==> table.keyOf[x] != it.key
      requires forall c, i {:trigger slab.free[c][i]} ::
                  0 <= c < |slab.free| && 0 <= i < |slab.free[c]| ==> slab.free[c][i] != it
      modifies table, it`hNext
      ensures slab.Valid() && table.Valid() && queues.Valid()
      ensures table.keyOf == Insert(old(table.keyOf), it, it.key)
    {
      hide Slab.Valid, LruQueues.Valid;
      table.HashInsert(it);
      QueuesSee(queues);
      SlabSees(slab);
    }

    /** item_link_q: the three structures stay in order, each for itself. */
    method EnterQueue(it: BaseItem)
      requires slab.Valid() && table.Valid() && queues.Valid()
      requires it.clsid == it.home < |queues.lists| == POWER_LARGEST && it !in queues.lists[it.home] && !it.flag.slabbed
      requires queues.lists[it.home] != [] ==> it.realtime >= queues.lists[it.home][0].realtime
      requires forall x :: x in queues.lists[it.home] ==> x in slab.chunks
      requires forall c, i {:trigger slab.free[c][i]} :: 0 <= c < |slab.free| && 0 <= i < |slab.free[c]| ==>
                 slab.free[c][i] != it && slab.free[c][i] !in queues.lists[it.home]
      modifies queues, it`next, it`prev, slab.chunks`prev
      ensures slab.Valid() && table.Valid() && queues.Valid()
      ensures queues.lists == old(queues.lists)[it.home := [it] + old(queues.lists[it.home])]
    {
      hide Slab.Valid, HashTable.Valid, LruQueues.Valid;
      queues.ItemLinkQ(it);
      TableSees(table);
      SlabSees(slab);
    }

    /** Writing the fields that a link stamps. */
    method Stamp(it: BaseItem, now: nat)
      requires slab.Valid() && table.Valid() && queues.Valid() && it !in table.keyOf
      requires forall c, i {:trigger slab.free[c][i]} ::
                  0 <= c < |slab.free| && 0 <= i < |slab.free[c]| ==> slab.free[c][i] != it
      requires forall b, i {:trigger table.chains[b][i]} ::
                  0 <= b < |table.chains| && 0 <= i < |table.chains[b]| ==> table.chains[b][i] in table.keyOf
      requires forall c, i {:trigger queues.lists[c][i]} ::
                  0 <= c < |queues.lists| && 0 <= i < |queues.lists[c]| ==> queues.lists[c][i] in table.keyOf
      modifies this`casId, it`flag, it`realtime, it`cas, it`refcount
      ensures slab.Valid() && table.Valid() && queues.Valid()
      ensures casId == old(casId) + 1 && it.cas == casId && it.realtime == now
      ensures it.flag == old(it.flag).(linked := true) && it.refcount == old(it.refcount) + 1
    {
      hide Slab.Valid, HashTable.Valid, LruQueues.Valid;
      it.flag := it.flag.(linked := true);
      it.realtime := now;
      casId := casId + 1;
      it.cas := casId;
      it.refcount := it.refcount + 1;
      TableSees(table);
      QueuesSee(queues);
      SlabSees(slab);
    }

    /** What do_item_link does under cache_lock: stamp, hash_insert, item_link_q, one more reference. */
    method Enter(it: BaseItem, now: nat)
      requires Valid() && it in ready && it !in table.keyOf && clock <= now
      requires forall x :: x in table.keyOf ==> table.keyOf[x] != it.key
      modifies this`casId, table, queues, it`flag, it`realtime, it`cas, it`refcount, it`hNext, it`next, it`prev
      modifies slab.chunks`prev
      ensures slab.Valid() && table.Valid() && queues.Valid()
      ensures table.keyOf == Insert(old(table.keyOf), it, it.key) && table.keyOf.Keys == old(table.keyOf).Keys + {it}
      ensures casId == old(casId) + 1 && it.cas == casId && it.realtime == now
      ensures it.home < |old(queues.lists)|
      ensures queues.lists == old(queues.lists)[it.home := [it] + old(queues.lists[it.home])]
      ensures it.flag == old(it.flag).(linked := true) && it.refcount == old(it.refcount) + 1
    {
      hide Slab.Valid, HashTable.Valid, LruQueues.Valid, Cross, ItemsOk;
      ghost var p := Now();
      ReadyAt(p, it);
      Apart();
      HandedApart(slab, it);
      AttachedCross(p, it, now);
      TimesAt(p, it, now);
      Stamp(it, now);
      EnterTable(it);
      EnterQueue(it);
    }

    /**
     * do_item_link: a filled item gets the next CAS id and the current time, and enters the index and the head of its
     * list; the link is one more reference. An item whose flag byte says LINKED or SLABBED is refused.
     */
    method DoItemLink(it: BaseItem, now: nat) returns (r: int)
      requires Valid() && Handed(it) && it !in table.keyOf
      requires it in ready || it.flag.Dirty()
      requires it in ready ==> forall x :: x in table.keyOf ==> table.keyOf[x] != it.key
      requires clock <= now
      modifies this`casId, this`clock, table, queues, it`flag, it`realtime, it`cas, it`refcount, it`hNext, it`next
      modifies it`prev, slab.chunks`prev
      ensures Valid() && (clock == old(clock) || clock == now)
      ensures r == if it in ready then 1 else 0
      ensures it !in ready ==>
                && table.keyOf == old(table.keyOf) && casId == old(casId) && queues.lists == old(queues.lists)
                && it.refcount == old(it.refcount) && it.flag == old(it.flag)
      ensures it in ready ==>
                && table.keyOf == Insert(old(table.keyOf), it, it.key)
                && casId == old(casId) + 1 && it.cas == casId && it.realtime == now
                && it.home < |old(queues.lists)|
                && queues.lists == old(queues.lists)[it.home := [it] + old(queues.lists[it.home])]
                && it.refcount == old(it.refcount) + 1 && it.flag == old(it.flag).(linked := true)
    {
      hide Change.Local, Slab.Valid, HashTable.Valid, LruQueues.Valid, Cross, ItemsOk, Insert;
      ghost var p := Now();
      ItemAt(p, it);
      if it.flag.linked || it.flag.slabbed { return 0; }
      AttachedCross(p, it, now);
      Enter(it, now);
      clock := now;
      assert Now() == Attached(p, it, now);
      NodesIn(Now(), queues);
      ItemsKept(Change(p, Now(), it));
      return 1;
    }

    method Requeue(it: BaseItem, ghost k: nat, now: nat)
      requires Valid() && it in ready && it in table.keyOf && clock <= now
      requires it.home < |queues.lists| && k < |queues.lists[it.home]| && queues.lists[it.home][k] == it
      modifies queues, it`realtime, slab.chunks`next, slab.chunks`prev
      ensures slab.Valid() && table.Valid() && queues.Valid() && it.realtime == now
      ensures queues.lists == old(queues.lists)[it.home := [it] + Drop(old(queues.lists[it.home]), k)]
    {
      hide Slab.Valid, HashTable.Valid, LruQueues.Valid, Cross, ItemsOk, Drop;
      ghost var p := Now();
      ghost var k2 := MemberAt(p, it);
      ReadyAt(p, it);
      Apart();
      QueueFacts(queues);
      TimesAt(p, it, now);
      DroppedFacts(queues.lists[it.home], k);
      LeaveQueue(it, k);
      label out:
      it.realtime := now;
      TableSees@out(table);
      SlabSees@out(slab);
      QueuesSee@out(queues);
      EnterQueue(it);
    }

    /** Items, lists and index still fit together once an item has moved to the head of its list. */
    twostate lemma Rejoined(it: BaseItem, new k: nat, new now: nat)
      requires old(Valid()) && slab.Valid() && table.Valid() && queues.Valid()
      requires it in old(ready) && it in old(table.keyOf) && old(clock) <= now && it.realtime == now
      requires it.home < |old(queues.lists)| && k < |old(queues.lists[it.home])| && old(queues.lists[it.home])[k] == it
      requires Now() == Bumped(old(Now()), it, k, now) && |slab.out| == |slab.geo|
      requires forall x {:trigger x in slab.chunks} :: x in slab.chunks && x != it ==> ScalarsOf(x) == old(ScalarsOf(x))
      requires ScalarsOf(it) == old(ScalarsOf(it)).(realtime := now)
      ensures Valid()
    {
      hide Change.Local, Slab.Valid, HashTable.Valid, LruQueues.Valid, Cross, ItemsOk, Drop;
      ghost var p := old(Now());
      WasReady(p, it);
      BumpedCross(p, it, k, now);
      NodesIn(Now(), queues);
      ItemsKept(Change(p, Now(), it));
    }

    /** Out of the list, the time written, and back in at the head. */
    method Bump(it: BaseItem, now: nat) returns (ghost k: nat)
      requires Valid() && it in ready && it in table.keyOf && clock <= now
      modifies this`clock, queues, it`realtime, slab.chunks`next, slab.chunks`prev
      ensures Valid() && clock == now && it.realtime == now
      ensures it.home < |old(queues.lists)| && k < |old(queues.lists[it.home])| && old(queues.lists[it.home])[k] == it
      ensures queues.lists == old(queues.lists)[it.home := [it] + Drop(old(queues.lists[it.home]), k)]
    {
      hide Change.Local, Slab.Valid, HashTable.Valid, LruQueues.Valid, Cross, ItemsOk, Drop;
      k := MemberAt(Now(), it);
      Requeue(it, k, now);
      label moved:
      clock := now;
      QueuesSee@moved(queues);
      Rejoined(it, k, now);
    }

    /**
     * do_item_update: an item that was linked or bumped more than a minute ago moves to the head of its list and takes
     * the present time. Its CAS id stays.
     */
    method DoItemUpdate(it: BaseItem, now: nat) returns (ghost k: nat)
      requires Valid() && it in ready && clock <= now
      modifies this`clock, queues, it`realtime, slab.chunks`next, slab.chunks`prev
      ensures Valid() && (clock == old(clock) || clock == now)
      ensures !(old(it.realtime) < Sub32(now, ITEM_UPDATE_INTERVAL) && it in table.keyOf) ==>
                queues.lists == old(queues.lists) && it.realtime == old(it.realtime)
      ensures old(it.realtime) < Sub32(now, ITEM_UPDATE_INTERVAL) && it in table.keyOf ==>
                && it.realtime == now && it.home < |old(queues.lists)| && k < |old(queues.lists[it.home])|
                && old(queues.lists[it.home])[k] == it
                && queues.lists == old(queues.lists)[it.home := [it] + Drop(old(queues.lists[it.home]), k)]
    {
      hide Slab.Valid, HashTable.Valid, LruQueues.Valid, Cross, ItemsOk, Drop;
      k := 0;
      ReadyAt(Now(), it);
      if it.realtime < Sub32(now, ITEM_UPDATE_INTERVAL) {
        if it.flag.slabbed { return; }
        if it.flag.linked { k := Bump(it, now); }
      }
    }

    /** No linked item has this key but, perhaps, x. */
    ghost predicate Owner(x: BaseItem, key: Key)
      reads table
    {
      x in table.keyOf && table.keyOf[x] == key
    }

    /** The items handed out but not linked, and what is said of them. */
    ghost function Waiting(): map<BaseItem, Info>
      reads this, slab, table, slab.chunks
    {
      map x | x in slab.chunks && Handed(x) && x !in table.keyOf :: InfoOf(x)
    }

    lemma WaitsIf(x: BaseItem)
      ensures x in Waiting() <==> Handed(x) && x !in table.keyOf
    {
    }

    /** Nothing that was waiting, but for `who`, has noticed. */
    twostate lemma StayBy(new touched: set<BaseItem>, new who: set<BaseItem>)
      requires old(slab.chunks) <= slab.chunks
      requires forall x {:trigger x in slab.chunks} ::
                  x in slab.chunks && x in old(slab.chunks) && x !in touched ==> Untouched(x)
      requires forall x {:trigger x in touched} :: x in touched ==> x in who || x !in old(Waiting())
      requires forall x {:trigger x in table.keyOf} ::
                  x in table.keyOf ==> x in old(table.keyOf) || x in who || x !in old(Waiting())
      ensures Stay(old(Waiting()), Waiting(), who)
    {
      hide LruList.InfoOf;
      forall x | x in old(Waiting()) && x !in who ensures x in Waiting() && Waiting()[x] == old(Waiting())[x] {
        assert x in slab.chunks && Untouched(x);
        StillThere(x);
      }
    }

    /** Linked items look as they did, but for those of one key. */
    twostate lemma ShownBy(new key: Key, new who: set<BaseItem>)
      requires Injective(table.keyOf) && old(Injective(table.keyOf)) && table.keyOf.Keys <= slab.chunks
      requires forall x {:trigger x in table.keyOf} :: x in table.keyOf ==> table.keyOf[x] == x.key
      requires forall x {:trigger x in old(table.keyOf)} :: x in old(table.keyOf) ==> old(table.keyOf)[x] == old(x.key)
      requires forall x {:trigger x in table.keyOf} :: x in table.keyOf ==>
                 if x in who then x.key == key else x in old(table.keyOf) && Untouched(x)
      ensures SameShown(old(ShownOf(table.keyOf)), ShownOf(table.keyOf), key)
      ensures who == {} ==> AllSame(old(ShownOf(table.keyOf)), ShownOf(table.keyOf))
    {
      hide ShownOf;
      var m0, m1 := old(ShownOf(table.keyOf)), ShownOf(table.keyOf);
      forall k | k in m1 && (k != key || who == {}) ensures k in m0 && m1[k] == m0[k] {
        var x :| x in table.keyOf && table.keyOf[x] == k;
        assert x !in who && x in old(table.keyOf) && InfoOf(x) == old(InfoOf(x));
      }
    }

    /** What is said of every chunk. */
    ghost function Infos(): map<BaseItem, Info>
      reads this, slab, slab.chunks
    {
      map x | x in slab.chunks :: InfoOf(x)
    }

    /** The item bound to a key, if there is one. */
    ghost function OwnersOf(key: Key): set<BaseItem>
      reads table
    {
      set x | x in table.keyOf && table.keyOf[x] == key
    }

    twostate lemma InfosKept(new who: set<BaseItem>)
      requires old(slab.chunks) <= slab.chunks
      requires forall x {:trigger x in slab.chunks} ::
                 x in slab.chunks && x in old(slab.chunks) && x !in who ==> Untouched(x)
      ensures Stay(old(Infos()), Infos(), who)
    {
      hide LruList.InfoOf;
      forall x | x in old(Infos()) && x !in who ensures x in Infos() && Infos()[x] == old(Infos())[x] {
        assert x in slab.chunks && Untouched(x);
      }
    }

    /** No other item has noticed. */
    twostate predicate Spared(new it: BaseItem?, new gone: set<BaseItem>)
      reads this, slab, slab.chunks
    {
      forall x {:trigger x in slab.chunks} ::
        x in slab.chunks && x in old(slab.chunks) && x != it && x !in gone ==> Untouched(x)
    }

    twostate lemma InfosSpared(new oldIt: BaseItem?, new it: BaseItem, new newIt: BaseItem?, new gone: set<BaseItem>)
      requires old(slab.chunks) <= slab.chunks && Spared(newIt, gone + Only(oldIt) + {it})
      ensures Stay(old(Infos()), Infos(), gone + Only(oldIt) + Only(newIt) + {it})
    {
      hide LruList.InfoOf, Stay;
      InfosKept(gone + Only(oldIt) + Only(newIt) + {it});
    }

    /** A linked item is not waiting. */
    lemma NotWaiting(oldIt: BaseItem?)
      requires oldIt != null ==> oldIt in table.keyOf
      ensures forall x {:trigger x in Only(oldIt)} :: x in Only(oldIt) ==> x !in Waiting()
    {
    }

    /** Linked items that keep their looks. */
    twostate lemma ShownSame()
      requires Injective(table.keyOf) && table.keyOf == old(table.keyOf)
      requires forall x {:trigger x in table.keyOf} :: x in table.keyOf ==> LooksOf(x) == old(LooksOf(x))
      ensures ShownOf(table.keyOf) == old(ShownOf(table.keyOf))
    {
      var m0, m1 := old(ShownOf(table.keyOf)), ShownOf(table.keyOf);
      forall k ensures k in m0 <==> k in m1 {
        if k in m0 { var x :| x in table.keyOf && table.keyOf[x] == k; }
        if k in m1 { var x :| x in table.keyOf && table.keyOf[x] == k; }
      }
      forall k | k in m1 ensures m1[k] == m0[k] {
        var x :| x in table.keyOf && table.keyOf[x] == k;
      }
    }

    /** No linked item looks different but at this key, and there, if it was found, it is referred to once more. */
    twostate predicate OnlySeen(key: Key, new found: bool)
      reads table, table.keyOf.Keys
    {
      && Injective(table.keyOf) && old(Injective(table.keyOf))
      && SameShown(old(ShownOf(table.keyOf)), ShownOf(table.keyOf), key)
      && (found ==> LookedAt(old(ShownOf(table.keyOf)), ShownOf(table.keyOf), key))
    }

    twostate lemma ShownServed(it: BaseItem, new kept: bool)
      requires Injective(table.keyOf) && old(Injective(table.keyOf)) && table.keyOf.Keys <= slab.chunks
      requires forall x {:trigger x in table.keyOf} :: x in table.keyOf ==> table.keyOf[x] == x.key
      requires forall x {:trigger x in old(table.keyOf)} :: x in old(table.keyOf) ==> old(table.keyOf)[x] == old(x.key)
      requires slab.chunks == old(slab.chunks) && it in old(table.keyOf) && it.key == old(it.key)
      requires table.keyOf == if kept then old(table.keyOf) else old(table.keyOf) - {it}
      requires forall x {:trigger x in slab.chunks} :: x in slab.chunks && x != it ==> Untouched(x)
      requires kept ==>
                it.exptime == old(it.exptime) && it.realtime == old(it.realtime) && it.refcount == old(it.refcount) + 1
      ensures OnlySeen(old(table.keyOf)[it], kept)
    {
      hide LruList.InfoOf, ShownOf;
      ShownBy(old(table.keyOf)[it], Only(it));
    }

    /** The expired branch of do_item_get: out of index and list, and both references dropped. */
    method Nuke(it: BaseItem)
      requires Valid() && it in ready && it in table.keyOf && it.handles > 0
      modifies this`ready, table, queues, slab`memBase, slab`free, slab`out, it`refcount, it`handles, it`leaks
      modifies it`exptime, it`clsid, it`flag
      modifies slab.chunks`hNext, slab.chunks`next, slab.chunks`prev
      ensures Valid() && slab.chunks == old(slab.chunks) && table.keyOf == old(table.keyOf) - {it}
      ensures OneAtMost(null)
      ensures forall x {:trigger x in slab.chunks} :: x in slab.chunks && x != it ==> Untouched(x)
      ensures slab.NoPoorer()
      ensures ready <= old(ready) && (it in ready ==> it.handles == old(it.handles) - 1)
    {
      hide Slab.Valid, HashTable.Valid, LruQueues.Valid, Cross, ItemsOk, Drop;
      ReadyAt(Now(), it);
      ghost var k := DoItemUnlink(it);
      DoItemRemove(it);
    }

    /** The branches of do_item_get on the item found. */
    method ServeOrNuke(it: BaseItem, now: nat) returns (kept: bool)
      requires Valid() && it in table.keyOf && Injective(table.keyOf)
      modifies this`ready, table, queues, slab`memBase, slab`free, slab`out, it`refcount, it`handles, it`leaks
      modifies it`exptime, it`clsid, it`flag
      modifies slab.chunks`hNext, slab.chunks`next, slab.chunks`prev
      ensures Valid() && slab.chunks == old(slab.chunks)
      ensures kept <==> !old(it.exptime != 0 && it.exptime <= now)
      ensures slab.NoPoorer()
      ensures OneAtMost(null)
      ensures kept ==>
                && it in ready && Handed(it) && table.keyOf == old(table.keyOf) && Injective(table.keyOf)
                && Abs() == old(Abs())
                && it.handles == old(it.handles) + 1 && it.refcount == old(it.refcount) + 1
                && it.flag == old(it.flag).(fetched := true) && it.exptime == old(it.exptime)
                && it.realtime == old(it.realtime)
                && ready == old(ready) && slab.out == old(slab.out) && queues.lists == old(queues.lists)
      ensures !kept ==>
                && table.keyOf == old(table.keyOf) - {it} && Injective(table.keyOf)
                && Abs() == State(Without(old(Abs()).view, old(table.keyOf)[it]), casId)
                && ready <= old(ready) && (it in ready ==> it.handles == old(it.handles))
      ensures forall x {:trigger x in slab.chunks} :: x in slab.chunks && x != it ==> Untouched(x)
    {
      hide Slab.Valid, HashTable.Valid, LruQueues.Valid, Cross, ItemsOk;
      Apart();
      ReadyAt(Now(), it);
      SetMeta(it, it.refcount + 1, it.flag, it.exptime, it.handles + 1, it.leaks);
      if it.exptime != 0 && it.exptime <= now {
        Nuke(it);
        ViewCut(KeyCut(old(table.keyOf), it));
        kept := false;
      } else {
        SetMeta(it, it.refcount, it.flag.(fetched := true), it.exptime, it.handles, it.leaks);
        SameView(table.keyOf);
        kept := true;
      }
    }

    lemma KeysAgree()
      requires Valid()
      ensures forall x {:trigger x in table.keyOf} :: x in table.keyOf ==> table.keyOf[x] == x.key
    {
    }

    /** do_item_get once the item is found: count a reference, then serve it or nuke it. */
    method Serve(it: BaseItem, now: nat) returns (kept: bool)
      requires Valid() && it in table.keyOf && Injective(table.keyOf)
      modifies this`ready, table, queues, slab`memBase, slab`free, slab`out, it`refcount, it`handles, it`leaks
      modifies it`exptime, it`clsid, it`flag
      modifies slab.chunks`hNext, slab.chunks`next, slab.chunks`prev
      ensures Valid() && slab.chunks == old(slab.chunks)
      ensures kept <==> !old(it.exptime != 0 && it.exptime <= now)
      ensures slab.NoPoorer()
      ensures OneAtMost(null)
      ensures OnlySeen(old(table.keyOf)[it], kept)
      ensures kept ==>
                && it in ready && Handed(it) && table.keyOf == old(table.keyOf) && Injective(table.keyOf)
                && Abs() == old(Abs())
                && it.handles == old(it.handles) + 1 && it.refcount == old(it.refcount) + 1
                && it.flag == old(it.flag).(fetched := true)
                && ready == old(ready) && slab.out == old(slab.out) && queues.lists == old(queues.lists)
      ensures !kept ==>
                && table.keyOf == old(table.keyOf) - {it} && Injective(table.keyOf)
                && Abs() == State(Without(old(Abs()).view, old(table.keyOf)[it]), casId)
                && ready <= old(ready) && (it in ready ==> it.handles == old(it.handles))
      ensures forall x {:trigger x in slab.chunks} :: x in slab.chunks && x != it ==> Untouched(x)
    {
      hide LruList.OnlySeen, LruList.Valid, LruList.InfoOf, LruList.Abs, LruList.HandedOut, Slab.NoPoorer;
      hide LruList.OneAtMost;
      KeysInChunks();
      KeysAgree();
      kept := ServeOrNuke(it, now);
      KeysInChunks();
      KeysAgree();
      ShownServed(it, kept);
    }

    lemma TableHere()
      requires Valid()
      ensures table.Valid()
    {
    }

    /** do_item_get once the bucket has been searched: serve the item found, if any. */
    method GetFound(found: BaseItem?, key: Key, now: nat) returns (it: BaseItem?)
      requires Valid() && Injective(table.keyOf)
      requires if found != null then Owner(found, key) else forall x :: x in table.keyOf ==> table.keyOf[x] != key
      modifies this`ready, table, queues, slab`memBase, slab`free, slab`out
      modifies slab.chunks`refcount, slab.chunks`handles, slab.chunks`leaks, slab.chunks`exptime, slab.chunks`clsid
      modifies slab.chunks`flag, slab.chunks`hNext, slab.chunks`next, slab.chunks`prev
      ensures Valid() && slab.chunks == old(slab.chunks) && Injective(table.keyOf)
      ensures Abs() == Live(old(Abs()), key, now)
      ensures slab.NoPoorer()
      ensures OneAtMost(null) && Stay(old(Waiting()), Waiting(), {})
      ensures OnlySeen(key, it != null)
      ensures it == null <==> key !in Abs().view
      ensures it != null ==>
                && Owner(it, key) && it in ready && it in old(ready) && Handed(it) && table.keyOf == old(table.keyOf)
                && it.handles == old(it.handles) + 1 && it.refcount == old(it.refcount) + 1
                && it.flag == old(it.flag).(fetched := true)
                && ready == old(ready) && slab.out == old(slab.out) && queues.lists == old(queues.lists)
      ensures it == null ==>
                ready <= old(ready) && forall x {:trigger x in ready} :: x in ready ==> x.handles == old(x.handles)
      ensures table.keyOf.Keys <= old(table.keyOf).Keys
      ensures forall x {:trigger x in slab.chunks} :: x in slab.chunks && !old(Owner(x, key)) ==> Untouched(x)
    {
      hide LruList.Waiting, LruList.HandedOut, Stay, Grew, LruList.Valid, Live, Apply, ScalarsOf, SameShown, ShownOf;
      hide LookedAt, LruList.InfoOf, ViewOf;
      KeysInChunks();
      it := null;
      if found != null {
        LiveFound(table.keyOf, found, casId, now);
        NotWaiting(found);
        var kept := Serve(found, now);
        StayBy(Only(found), {});
        if kept { it := found; }
      } else {
        LiveMissed(table.keyOf, key, casId, now);
        SameShownNot(ShownOf(table.keyOf), key);
        StayBy({}, {});
        StartsStill();
      }
    }

    lemma ClassTable()
      requires Valid()
      ensures GoodTable(slab.geo, slab.powerLargest) && |slab.memBase| == |slab.geo| && Injective(table.keyOf)
    {
    }

    /**
     * do_item_get: the item bound to the key, with one more reference and the FETCHED bit, or null when the key is
     * unbound or its expiry has passed; in the latter case the item is unlinked and released first.
     */
    method DoItemGet(key: Key, now: nat) returns (it: BaseItem?)
      requires Valid()
      modifies this`ready, table, queues, slab`memBase, slab`free, slab`out
      modifies slab.chunks`refcount, slab.chunks`handles, slab.chunks`leaks, slab.chunks`exptime, slab.chunks`clsid
      modifies slab.chunks`flag, slab.chunks`hNext, slab.chunks`next, slab.chunks`prev
      ensures Valid() && slab.chunks == old(slab.chunks) && Injective(table.keyOf)
      ensures Abs() == Live(old(Abs()), key, now)
      ensures slab.NoPoorer()
      ensures OneAtMost(null) && Stay(old(Waiting()), Waiting(), {})
      ensures OnlySeen(key, it != null)
      ensures it == null <==> key !in Abs().view
      ensures it != null ==>
                && Owner(it, key) && it in ready && it in old(ready) && Handed(it) && table.keyOf == old(table.keyOf)
                && it.handles == old(it.handles) + 1 && it.refcount == old(it.refcount) + 1
                && it.flag == old(it.flag).(fetched := true)
                && ready == old(ready) && slab.out == old(slab.out) && queues.lists == old(queues.lists)
      ensures it == null ==>
                ready <= old(ready) && forall x {:trigger x in ready} :: x in ready ==> x.handles == old(x.handles)
      ensures table.keyOf.Keys <= old(table.keyOf).Keys
      ensures forall x {:trigger x in slab.chunks} :: x in slab.chunks && !old(Owner(x, key)) ==> Untouched(x)
    {
      hide LruList.Waiting, LruList.HandedOut, Stay, LruList.Valid, Live, ScalarsOf, SameShown, ShownOf, LookedAt;
      hide LruList.InfoOf, LruList.Abs;
      ClassTable();
      KeysInChunks();
      TableHere();
      var found := table.HashFind(key);
      it := GetFound(found, key, now);
    }

    /** A chunk of this class holds n bytes. */
    ghost predicate Fits(n: nat, id: nat) { id < |slab.geo| && n <= slab.geo[id].size }

    /** A chunk handed out with this many bytes charged, in nobody's structures, with one reference, its client's. */
    ghost predicate Raw(it: BaseItem, ntotal: nat)
      reads this, slab, it
    {
      && Handed(it) && it !in ready && slab.out[it.home][it] == ntotal && it.clsid == it.home > 0
      && it.refcount == 1 && it.handles == 1 && it.leaks == 0
    }

    /**
     * What the caller gets: a chunk of its class, taken out for it or not handed out before, and in nobody's
     * structures.
     */
    twostate predicate Yields(new it: BaseItem?, new ntotal: nat, new id: nat, new gone: set<BaseItem>)
      reads this, slab, table, Only(it)
    {
      it != null ==> Raw(it, ntotal) && it.home == id && it !in table.keyOf && (it in gone || Unheld(it))
    }

    /** The item was linked and has been taken out, or was not handed out. */
    twostate predicate Fresh(new it: BaseItem?, new gone: set<BaseItem>) {
      (it != null ==> it in gone || Unheld(it)) && gone <= old(table.keyOf).Keys
    }

    twostate lemma FreshIsNew(new it: BaseItem?, new gone: set<BaseItem>)
      requires Fresh(it, gone)
      ensures gone <= old(table.keyOf).Keys && (gone + Only(it)) !! old(Waiting()).Keys
      ensures it != null ==> it !in old(Waiting())
    {
    }

    /** slabs_alloc: the three structures stay in order, each for itself. */
    method TakeChunk(ntotal: nat, id: nat, reallocOk: bool, mallocOk: bool) returns (it: BaseItem?)
      requires Valid() && id < |slab.memBase|
      modifies slab, slab.chunks`prev
      ensures slab.Valid() && table.Valid() && queues.Valid() && |slab.out| == |slab.geo|
      ensures old(slab.chunks) <= slab.chunks && fresh(slab.chunks - old(slab.chunks))
      ensures slab.Growth()
      ensures it == null <==> !old(slab.CanServe(id, reallocOk, mallocOk))
      ensures it == null ==> slab.out == old(slab.out) && slab.free == old(slab.free) && slab.chunks == old(slab.chunks)
      ensures it != null ==>
                && Idle(it) && it in slab.chunks && it.home == id && id > 0 && it !in old(slab.out[id])
                && (it in old(slab.chunks) || fresh(it))
                && |slab.out| == |old(slab.out)|
                && slab.out == old(slab.out)[id := Charge(old(slab.out[id]), it, ntotal)]
    {
      hide Slab.Valid, HashTable.Valid, LruQueues.Valid, Cross, ItemsOk;
      Apart();
      SlabSizes(slab);
      it := slab.DoSlabsAlloc(ntotal, id, reallocOk, mallocOk);
      TableSees(table);
      QueuesSee(queues);
      SlabSizes(slab);
    }

    /** The class and the first reference of a new item. */
    method PutStamp(it: BaseItem, id: nat)
      requires slab.Valid() && table.Valid() && queues.Valid() && it.home < |slab.out| && it in slab.out[it.home]
      modifies it`clsid, it`refcount, it`handles
      ensures slab.Valid() && table.Valid() && queues.Valid()
      ensures it.clsid == id && it.refcount == 1 && it.handles == 1
    {
      hide Slab.Valid, HashTable.Valid, LruQueues.Valid;
      HandedApart(slab, it);
      it.clsid, it.refcount := id, 1;
      it.handles := 1;
      SlabSees(slab);
      TableSees(table);
      QueuesSee(queues);
    }

    /** slabs_alloc, and the stamping of the new item: its class and the reference of the client that asked for it. */
    method FromSlab(ntotal: nat, id: nat, reallocOk: bool, mallocOk: bool) returns (it: BaseItem?)
      requires Valid() && id < |slab.memBase|
      requires Fits(ntotal, id)
      modifies slab, slab.chunks`prev, slab.chunks`clsid, slab.chunks`refcount, slab.chunks`handles
      ensures Valid() && old(slab.chunks) <= slab.chunks && fresh(slab.chunks - old(slab.chunks))
      ensures slab.Growth()
      ensures OneAtMost(it)
      ensures it == null <==> !old(slab.CanServe(id, reallocOk, mallocOk))
      ensures it == null ==> slab.out == old(slab.out) && slab.free == old(slab.free) && slab.chunks == old(slab.chunks)
      ensures it != null ==>
                && Raw(it, ntotal) && it.home == id && it !in table.keyOf && Unheld(it)
                && |slab.out| == |old(slab.out)|
                && slab.out == old(slab.out)[id := Charge(old(slab.out[id]), it, ntotal)]
      ensures forall x {:trigger x in slab.chunks} :: x in old(slab.chunks) && x != it ==> Untouched(x)
    {
      hide LruList.InfoOf, LruList.Untouched, Grew;
      hide Slab.Valid, HashTable.Valid, LruQueues.Valid, Cross, ItemsOk;
      ghost var p := Now();
      OutInChunks(slab);
      SlabSizes(slab);
      it := TakeChunk(ntotal, id, reallocOk, mallocOk);
      if it == null {
        AllKept(p);
        NoneChanged();
      } else {
        PoppedCross(p, it, ntotal, slab.chunks);
        PutStamp(it, id);
        assert Now() == Popped(p, it, ntotal, slab.chunks);
        NodesIn(Now(), queues);
        RawKept(p, Now(), it);
        OthersSame(it);
      }
    }

    /** slabs_alloc seen from the map, which does not notice. */
    method FreshChunk(ntotal: nat, id: nat, reallocOk: bool, mallocOk: bool) returns (it: BaseItem?)
      requires Valid() && id < |slab.memBase| && Injective(table.keyOf)
      requires Fits(ntotal, id)
      modifies slab, slab.chunks`prev, slab.chunks`clsid, slab.chunks`refcount, slab.chunks`handles
      ensures Valid() && old(slab.chunks) <= slab.chunks && fresh(slab.chunks - old(slab.chunks))
      ensures slab.Growth()
      ensures OneAtMost(it)
      ensures it == null <==> !old(slab.CanServe(id, reallocOk, mallocOk))
      ensures ViewOf(table.keyOf) == old(ViewOf(table.keyOf)) && Abs() == old(Abs())
      ensures it != null ==> Raw(it, ntotal) && it.home == id && it !in table.keyOf && Unheld(it)
      ensures forall x {:trigger x in slab.chunks} :: x in old(slab.chunks) && x != it ==> Untouched(x)
    {
      hide LruList.Valid, Raw, ViewOf, ScalarsOf, Handed;
      it := FromSlab(ntotal, id, reallocOk, mallocOk);
      KeysInChunks();
      SameView(table.keyOf);
    }

    /** An item has left the index, the map, and its place k on the list of its class. */
    twostate predicate Left(it: BaseItem, new k: nat)
      reads this, table, queues, table.keyOf.Keys
    {
      && Injective(table.keyOf) && Injective(old(table.keyOf)) && it in old(table.keyOf)
      && table.keyOf == old(table.keyOf) - {it}
      && Abs() == State(Without(old(Abs()).view, old(table.keyOf)[it]), casId)
      && it.home < |old(queues.lists)| && k < |old(queues.lists[it.home])| && old(queues.lists[it.home])[k] == it
      && queues.lists == old(queues.lists)[it.home := Drop(old(queues.lists[it.home]), k)]
    }

    /** Index, map and lists are as they were. */
    twostate predicate Unmoved()
      reads this, table, queues, table.keyOf.Keys
    {
      && Injective(table.keyOf) && Injective(old(table.keyOf))
      && table.keyOf == old(table.keyOf) && queues.lists == old(queues.lists) && Abs() == old(Abs())
    }

    method Unready(it: BaseItem, ntotal: nat)
      requires Valid() && it in ready && it !in table.keyOf
      requires it.refcount == 1 && it.handles == 1 && it.leaks == 0
      requires Fits(ntotal, it.home)
      modifies this`ready, slab`memBase, slab`free, slab`out, it`refcount, it`clsid
      ensures Valid() && slab.chunks == old(slab.chunks) && OneAtMost(null)
      ensures Raw(it, ntotal) && ready == old(ready) - {it} && it.home < |old(slab.out)|
      ensures |slab.out| == |old(slab.out)|
      ensures slab.out == old(slab.out)[it.home := Charge(old(slab.out[it.home]), it, ntotal)]
      ensures forall x {:trigger x in slab.chunks} :: x in slab.chunks && x != it ==> Untouched(x)
    {
      hide LruList.InfoOf, LruList.Untouched;
      hide Change.Local, LruList.OneAtMost, Slab.Valid, HashTable.Valid, LruQueues.Valid, Cross, ItemsOk;
      ghost var p := Now();
      ReadyAt(p, it);
      SlabSizes(slab);
      UnreadyCross(p, it, ntotal);
      slab.SlabsAdjustMemRequested(it.clsid, ItemTotal(it.key, it.value), ntotal, it);
      label adjusted:
      HandedApart(slab, it);
      var id := it.clsid;
      it.clsid := 0;
      it.refcount := it.refcount - 1;
      it.clsid := id;
      it.refcount := it.refcount + 1;
      ready := ready - {it};
      SlabSees@adjusted(slab);
      TableSees(table);
      QueuesSee(queues);
      assert Now() == Unreadied(p, it, ntotal);
      ItemsKept(Change(p, Now(), it));
      OthersSame(it);
      NoneHanded();
    }

    /** do_item_unlink of an item somebody else still refers to: its key leaves the map, the item itself stays. */
    method UnlinkHeld(it: BaseItem) returns (ghost k: nat)
      requires Valid() && it in ready && it in table.keyOf && Injective(table.keyOf) && it.refcount > 1
      modifies this`ready, table, queues, slab`memBase, slab`free, slab`out, it`refcount, it`handles, it`leaks
      modifies it`exptime, it`clsid, it`flag
      modifies slab.chunks`hNext, slab.chunks`next, slab.chunks`prev
      ensures Valid() && slab.chunks == old(slab.chunks) && ready == old(ready) && slab.out == old(slab.out)
      ensures slab.free == old(slab.free)
      ensures Left(it, k) && OneAtMost(null)
      ensures it.refcount == old(it.refcount) - 1 && it.flag == old(it.flag).(linked := false)
      ensures it.clsid == old(it.clsid)
      ensures it.handles == old(it.handles) && it.leaks == old(it.leaks) && it.exptime == old(it.exptime)
      ensures forall x {:trigger x in slab.chunks} :: x in slab.chunks && x != it ==> Untouched(x)
    {
      hide Slab.Valid, HashTable.Valid, LruQueues.Valid, Cross, ItemsOk, Drop, Without, LruList.Untouched;
      hide LruList.HandedOut, Grew;
      k := DoItemUnlink(it);
      ViewCut(KeyCut(old(table.keyOf), it));
    }

    /**
     * The reuse of an evicted item by do_item_alloc: unlinked, the bytes charged for its chunk adjusted to the new
     * request, the scan's reference dropped, and stamped for its new client. The chunk never visits the free list.
     */
    method Recycle(it: BaseItem, ntotal: nat) returns (ghost k: nat)
      requires Valid() && it in ready && it in table.keyOf && Injective(table.keyOf)
      requires it.refcount == 2 && it.handles == 1 && it.leaks == 0
      requires Fits(ntotal, it.home)
      modifies this`ready, table, queues, slab`memBase, slab`free, slab`out, it`refcount, it`handles, it`leaks
      modifies it`exptime, it`clsid, it`flag
      modifies slab.chunks`hNext, slab.chunks`next, slab.chunks`prev
      ensures Valid() && slab.chunks == old(slab.chunks)
      ensures OneAtMost(it) && slab.Growth()
      ensures Left(it, k)
      ensures Raw(it, ntotal) && ready == old(ready) - {it} && it.home < |old(slab.out)|
      ensures |slab.out| == |old(slab.out)|
      ensures slab.out == old(slab.out)[it.home := Charge(old(slab.out[it.home]), it, ntotal)]
      ensures forall x {:trigger x in slab.chunks} :: x in slab.chunks && x != it ==> Untouched(x)
    {
      hide LruList.InfoOf, LruList.Valid, Drop, Without, ViewOf, LruList.HandedOut, LruList.OneAtMost, Slab.Growth;
      hide Charge;
      k := UnlinkHeld(it);
      Took(null);
      ghost var handed := HandedOut();
      label out:
      Unready(it, ntotal);
      Took@out(null);
      HandsAdd(handed, it);
      slab.MemStays();
    }

    /**
     * A client fills in the item it was given (the connection, or the append): key, value, expiry, CAS id and flag
     * byte. An item whose flag byte claims LINKED or SLABBED stays out of every structure for good.
     */
    method Fill(it: BaseItem, key: Key, value: Blob, exptime: nat, cas: nat, flag: ItemFlag)
      requires Valid() && Raw(it, ItemTotal(key, value)) && it !in table.keyOf
      modifies this`ready, it`key, it`value, it`exptime, it`cas, it`flag
      ensures Valid() && ready == if flag.Dirty() then old(ready) else old(ready) + {it}
      ensures it.key == key && it.value == value && it.exptime == exptime && it.cas == cas && it.flag == flag
      ensures it !in old(ready)
    {
      hide Change.Local, Slab.Valid, HashTable.Valid, LruQueues.Valid, Cross, ItemsOk;
      ghost var p := Now();
      Apart();
      HandedApart(slab, it);
      ItemAt(p, it);
      FilledCross(p, it);
      it.cas := cas;
      it.flag := flag;
      it.exptime := exptime;
      it.key, it.value := key, value;
      ready := if flag.Dirty() then ready else ready + {it};
      SlabSees(slab);
      TableSees(table);
      QueuesSee(queues);
      ItemsKept(Change(p, Now(), it));
    }

    method WriteCount(it: BaseItem, refcount: nat, ghost handles: nat)
      requires Valid() && it in ready && refcount + it.handles == it.refcount + handles
      modifies it`refcount, it`handles
      ensures Valid() && it.refcount == refcount && it.handles == handles
    {
      hide Change.Local, Slab.Valid, HashTable.Valid, LruQueues.Valid, Cross, ItemsOk, ScalarsOf;
      ReadyApart(slab, Now(), it);
      ReadyAt(Now(), it);
      SameLocal(Now(), it);
      it.refcount := refcount;
      it.handles := handles;
      SlabSees(slab);
      TableSees(table);
      QueuesSee(queues);
      ItemsKept(Change(old(Now()), Now(), it));
    }

    /** atomic_fetch_add on the reference count, for a reference the caller will hold. */
    method AddRef(it: BaseItem)
      requires Valid() && it in ready && Injective(table.keyOf)
      modifies it`refcount, it`handles
      ensures Valid() && Abs() == old(Abs())
      ensures it.refcount == old(it.refcount) + 1 && it.handles == old(it.handles) + 1
    {
      hide Slab.Valid, HashTable.Valid, LruQueues.Valid, Cross, ItemsOk;
      WriteCount(it, it.refcount + 1, it.handles + 1);
      SameView(table.keyOf);
    }

    /** atomic_fetch_sub on the reference count, for a reference the caller holds. */
    method SubRef(it: BaseItem)
      requires Valid() && it in ready && Injective(table.keyOf) && it.handles > 0 && it.refcount > 0
      modifies it`refcount, it`handles
      ensures Valid() && Abs() == old(Abs())
      ensures it.refcount == old(it.refcount) - 1 && it.handles == old(it.handles) - 1
    {
      hide Slab.Valid, HashTable.Valid, LruQueues.Valid, Cross, ItemsOk;
      WriteCount(it, it.refcount - 1, it.handles - 1);
      SameView(table.keyOf);
    }

    /** What is known of a ready item. */
    lemma ReadyHere(it: BaseItem)
      requires Valid() && it in ready
      ensures Handed(it) && it.clsid == it.home && 0 < it.home < |slab.memBase| <= |queues.lists|
      ensures Injective(table.keyOf) && table.keyOf.Keys <= ready
      ensures !it.flag.slabbed && (it.flag.linked <==> it in table.keyOf)
      ensures it.refcount == (if it in table.keyOf then 1 else 0) + it.handles + it.leaks
      ensures slab.out[it.home][it] == ItemTotal(it.key, it.value)
      ensures it in table.keyOf ==> table.keyOf[it] == it.key && it.realtime <= clock && 1 <= it.cas <= casId
    {
      hide Slab.Valid, LruQueues.Valid;
      Apart();
      ReadyAt(Now(), it);
      SlabSizes(slab);
    }

    /** An item the scan may repair: nobody has linked or bumped it for three hours. */
    predicate Aged(it: BaseItem, now: nat)
      reads it
    {
      Add32(it.realtime, TAIL_REPAIR_TIME) < now
    }

    /**
     * The tail repair of do_item_alloc: the count of an item nobody has used for three hours is reset to the link's
     * own reference, and the item is unlinked, which frees it, even from under a client that still holds it.
     */
    method RepairTail(it: BaseItem) returns (ghost k: nat)
      requires Valid() && it in ready && it in table.keyOf
      modifies this`ready, table, queues, slab`memBase, slab`free, slab`out, it`refcount, it`handles, it`leaks
      modifies it`exptime, it`clsid, it`flag
      modifies slab.chunks`hNext, slab.chunks`next, slab.chunks`prev
      ensures Valid() && slab.chunks == old(slab.chunks) && ready == old(ready) - {it}
      ensures Left(it, k)
      ensures slab.NoPoorer() && OneAtMost(null)
      ensures forall x {:trigger x in slab.chunks} :: x in slab.chunks && x != it ==> Untouched(x)
    {
      hide LruList.Valid, Drop, Without, LruList.InfoOf, LruList.HandedOut, Grew;
      ReadyHere(it);
      SetMeta(it, 1, it.flag, it.exptime, 0, 0);
      k := DoItemUnlink(it);
      ViewCut(KeyCut(old(table.keyOf), it));
    }

    /** The outcome of a turn on an item nobody holds: that item reused, a chunk from the slab, or nothing. */
    twostate predicate Got(new it: BaseItem?, search: BaseItem, new k: nat, new ntotal: nat)
      reads this, slab, table, queues, table.keyOf.Keys, Only(it)
    {
      && Injective(table.keyOf) && search.home < |old(queues.lists)|
      && (if it == search then Left(search, k) else Unmoved())
      && ready == old(ready) - (if it == search then {search} else {})
      && slab.Growth() && OneAtMost(it)
      && (it != null ==>
           && Raw(it, ntotal) && it.home == search.home && it !in table.keyOf && (it == search || Unheld(it)))
    }

    /** The scan picked as the item looked and as the slab was before the turn. */
    twostate predicate PickedFor(new it: BaseItem?, search: BaseItem, new w: World)
      reads {}
    {
      Picked(
        old(PickFor(1, search.exptime, w.now, slab.CanServe(search.home, w.reallocOk, w.mallocOk), w.evictToFree)),
        it, search)
    }

    /** The branch of the scan for an item somebody holds: its count is restored, and repaired if it is aged. */
    method SkipHeld(search: BaseItem, w: World) returns (ghost gone: bool, ghost k: nat)
      requires Valid() && search in ready && search in table.keyOf && search.refcount != 1
      modifies this`ready, table, queues, slab`memBase, slab`free, slab`out, search`refcount, search`handles
      modifies search`leaks, search`exptime, search`clsid, search`flag
      modifies slab.chunks`hNext, slab.chunks`next, slab.chunks`prev
      ensures Valid() && slab.chunks == old(slab.chunks) && Injective(table.keyOf) && Injective(old(table.keyOf))
      ensures search.home < |old(queues.lists)| && (gone <==> old(Aged(search, w.now)))
      ensures slab.NoPoorer() && OneAtMost(null)
      ensures ready == old(ready) - (if gone then {search} else {})
      ensures if gone then Left(search, k) else Unmoved()
      ensures forall x {:trigger x in slab.chunks} :: x in slab.chunks && !(gone && x == search) ==> Untouched(x)
    {
      hide LruList.Abs, LruList.InfoOf, LruList.HandedOut, Grew, LruList.Valid, Drop, Without, Raw;
      ReadyHere(search);
      gone, k := false, 0;
      AddRef(search);
      SubRef(search);
      if Add32(search.realtime, TAIL_REPAIR_TIME) < w.now {
        k := RepairTail(search);
        gone := true;
      }
    }

    method Evict(search: BaseItem, ntotal: nat) returns (ghost k: nat)
      requires Valid() && search in ready && search in table.keyOf && Injective(table.keyOf)
      requires search.refcount == 2 && search.handles == 1 && search.leaks == 0
      requires Fits(ntotal, search.home)
      modifies this`ready, table, queues, slab`memBase, slab`free, slab`out
      modifies slab.chunks`refcount, slab.chunks`handles, slab.chunks`leaks, slab.chunks`exptime, slab.chunks`clsid
      modifies slab.chunks`flag, slab.chunks`hNext, slab.chunks`next, slab.chunks`prev
      ensures Valid() && old(slab.chunks) <= slab.chunks && fresh(slab.chunks - old(slab.chunks))
      ensures Injective(table.keyOf)
      ensures Got(search, search, k, ntotal)
      ensures forall x {:trigger x in slab.chunks} :: x in old(slab.chunks) && x != search ==> Untouched(x)
    {
      hide LruList.InfoOf, LruList.HandedOut, LruList.OneAtMost, Grew, LruList.Valid, Drop, Without, Raw, ViewOf;
      KeysInChunks();
      k := Recycle(search, ntotal);
    }

    /** A chunk from the slab or, if there is none and evict_to_free is set, the item itself. */
    method ChunkOrEvict(search: BaseItem, ntotal: nat, w: World)
      returns (it: BaseItem?, ghost k: nat)
      requires Valid() && search in ready && search in table.keyOf && Injective(table.keyOf)
      requires search.refcount == 2 && search.handles == 1 && search.leaks == 0
      requires Fits(ntotal, search.home)
      modifies this`ready, table, queues, slab
      modifies slab.chunks`refcount, slab.chunks`handles, slab.chunks`leaks, slab.chunks`exptime, slab.chunks`clsid
      modifies slab.chunks`flag, slab.chunks`hNext, slab.chunks`next, slab.chunks`prev
      ensures Valid() && old(slab.chunks) <= slab.chunks && fresh(slab.chunks - old(slab.chunks))
      ensures Injective(table.keyOf)
      ensures Got(it, search, k, ntotal)
      ensures if old(slab.CanServe(search.home, w.reallocOk, w.mallocOk)) then it != null && it != search
                else it == if w.evictToFree then search else null
      ensures forall x {:trigger x in slab.chunks} :: x in old(slab.chunks) && x != it ==> Untouched(x)
    {
      hide LruList.InfoOf, LruList.HandedOut, LruList.OneAtMost, LruList.Unheld, Grew, LruList.Valid, Drop, Without;
      hide Raw, ViewOf, LruList.Abs, Slab.CanServe;
      ReadyHere(search);
      k := 0;
      it := FreshChunk(ntotal, search.home, w.reallocOk, w.mallocOk);
      StillThere(search);
      if it == null && w.evictToFree {
        Took(null);
        ghost var handed := HandedOut();
        label refused:
        k := Recycle(search, ntotal);
        it := search;
        Took@refused(search);
        HandsAdd(handed, search);
      }
    }

    /** The choice of the scan while it holds a reference of its own to the item. */
    method Choose(search: BaseItem, ntotal: nat, w: World)
      returns (it: BaseItem?, ghost k: nat)
      requires Valid() && search in ready && search in table.keyOf && Injective(table.keyOf)
      requires search.refcount == 2 && search.handles == 1 && search.leaks == 0
      requires Fits(ntotal, search.home)
      modifies this`ready, table, queues, slab
      modifies slab.chunks`refcount, slab.chunks`handles, slab.chunks`leaks, slab.chunks`exptime, slab.chunks`clsid
      modifies slab.chunks`flag, slab.chunks`hNext, slab.chunks`next, slab.chunks`prev
      ensures Valid() && old(slab.chunks) <= slab.chunks && fresh(slab.chunks - old(slab.chunks))
      ensures Injective(table.keyOf)
      ensures Got(it, search, k, ntotal)
      ensures PickedFor(it, search, w)
      ensures forall x {:trigger x in slab.chunks} :: x in old(slab.chunks) && x != it ==> Untouched(x)
    {
      hide LruList.InfoOf, LruList.Got, LruList.Valid, Slab.CanServe, Picked, PickFor, ViewOf;
      k := 0;
      ghost var exptime, can := search.exptime, slab.CanServe(search.home, w.reallocOk, w.mallocOk);
      if search.exptime != 0 && search.exptime < w.now {
        k := Evict(search, ntotal);
        it := search;
      } else {
        it, k := ChunkOrEvict(search, ntotal, w);
      }
      PickedBy(exptime, w, can, it, search);
    }

    /**
     * The branch of the scan for an item nobody holds: reuse it if it has expired, else take a chunk, else evict it.
     */
    method TakeOrReuse(search: BaseItem, ntotal: nat, w: World)
      returns (it: BaseItem?, ghost k: nat)
      requires Valid() && search in ready && search in table.keyOf && Injective(table.keyOf) && search.refcount == 1
      requires Fits(ntotal, search.home)
      modifies this`ready, table, queues, slab
      modifies slab.chunks`refcount, slab.chunks`handles, slab.chunks`leaks, slab.chunks`exptime, slab.chunks`clsid
      modifies slab.chunks`flag, slab.chunks`hNext, slab.chunks`next, slab.chunks`prev
      ensures Valid() && old(slab.chunks) <= slab.chunks && fresh(slab.chunks - old(slab.chunks))
      ensures Injective(table.keyOf)
      ensures Got(it, search, k, ntotal)
      ensures PickedFor(it, search, w)
      ensures forall x {:trigger x in slab.chunks} :: x in old(slab.chunks) && x != it ==> Untouched(x)
    {
      hide LruList.Abs, LruList.HandedOut, Grew, LruList.Valid, Drop, Without, Raw, ViewOf;
      ReadyHere(search);
      AddRef(search);
      label counted:
      it, k := Choose(search, ntotal, w);
      if it != search {
        StillThere@counted(search);
        SubRef(search);
      }
    }

    /**
     * One turn of the scan whose try_lock has succeeded. `gone` says that the item under the scan was unlinked: after
     * a tail repair, or because it is reused. A null result with `stop` means that nothing could be had.
     */
    method TryItem(search: BaseItem, ntotal: nat, w: World)
      returns (it: BaseItem?, stop: bool, ghost gone: bool, ghost k: nat)
      requires Valid() && search in ready && search in table.keyOf && Injective(table.keyOf)
      requires Fits(ntotal, search.home)
      modifies this`ready, table, queues, slab
      modifies slab.chunks`refcount, slab.chunks`handles, slab.chunks`leaks, slab.chunks`exptime, slab.chunks`clsid
      modifies slab.chunks`flag, slab.chunks`hNext, slab.chunks`next, slab.chunks`prev
      ensures Valid() && old(slab.chunks) <= slab.chunks && fresh(slab.chunks - old(slab.chunks))
      ensures Injective(table.keyOf)
      ensures search.home < |old(queues.lists)|
      ensures if gone then Left(search, k) else Unmoved()
      ensures stop <==> old(search.refcount) == 1
      ensures ready == old(ready) - (if gone then {search} else {})
      ensures !stop ==> it == null && slab.chunks == old(slab.chunks) && (gone <==> old(Aged(search, w.now)))
      ensures stop && it == null ==> !gone
      ensures stop ==>
                PickedFor(it, search, w)
      ensures !stop ==> slab.NoPoorer()
      ensures slab.Growth()
      ensures OneAtMost(it)
      ensures stop && it != null ==>
                && Raw(it, ntotal) && it.home == search.home && it !in table.keyOf && (gone <==> it == search)
                && (gone || Unheld(it))
      ensures forall x {:trigger x in slab.chunks} ::
                  x in old(slab.chunks) && x != it && !(gone && x == search) ==> Untouched(x)
    {
      hide LruList.InfoOf, LruList.HandedOut, LruList.Valid, Drop, Without, Raw;
      ReadyHere(search);
      it, stop, gone, k := null, false, false, 0;
      if search.refcount != 1 {
        gone, k := SkipHeld(search, w);
      } else {
        stop := true;
        it, k := TakeOrReuse(search, ntotal, w);
        gone := it == search;
      }
    }

    /** A placeholder the scan steps over without charging a try: no key, no value, and no flag but LINKED. */
    predicate Placeholder(x: BaseItem)
      reads x
    {
      x.value == [] && x.key == [] && x.flag == ItemFlag(true, false, false, 0)
    }

    ghost function LookOf(x: BaseItem, now: nat): Look
      reads x, table
    {
      Look(Placeholder(x), x.refcount, x.exptime, Aged(x, now), table.bucketOf(x.key))
    }

    /** How the items of a list look to a scan. */
    ghost function Looks(l: seq<BaseItem>, now: nat): (r: seq<Look>)
      reads l, table
      ensures |r| == |l| && forall j {:trigger r[j]} :: 0 <= j < |l| ==> r[j] == LookOf(l[j], now)
    {
      seq(|l|, j requires 0 <= j < |l| reads l, table => LookOf(l[j], now))
    }

    twostate lemma StillLooks(new now: nat, spot: Spot)
      requires spot.v < |spot.l| && Untouched(spot.l[spot.v])
      ensures LookOf(spot.l[spot.v], now) == old(Looks(spot.l, now))[spot.v]
    {
      assert old(Looks(spot.l, now))[spot.v] == old(LookOf(spot.l[spot.v], now));
    }

    /** One turn of the scan. */
    method ScanTurn(
        search: BaseItem, id: nat, ghost pos: nat, ghost look: Look, tries: nat, ntotal: nat, w: World)
      returns (it: BaseItem?, stop: bool, triesLeft: nat, next: BaseItem?, ghost left: bool)
      requires Valid() && Injective(table.keyOf) && id < |queues.lists| && pos < |queues.lists[id]|
      requires queues.lists[id][pos] == search
      requires tries > 0 && look == LookOf(search, w.now)
      requires Fits(ntotal, id)
      modifies this`ready, table, queues, slab
      modifies slab.chunks`refcount, slab.chunks`handles, slab.chunks`leaks, slab.chunks`exptime, slab.chunks`clsid
      modifies slab.chunks`flag, slab.chunks`hNext, slab.chunks`next, slab.chunks`prev
      ensures Valid() && Injective(table.keyOf)
      ensures old(slab.chunks) <= slab.chunks && fresh(slab.chunks - old(slab.chunks))
      ensures id < |queues.lists| && pos <= |queues.lists[id]|
      ensures queues.lists[id][..pos] == old(queues.lists[id])[..pos]
      ensures next == At(queues.lists[id], pos - 1)
      ensures triesLeft == if look.placeholder then tries else tries - 1
      ensures !left ==> table.keyOf == old(table.keyOf) && ViewOf(table.keyOf) == old(ViewOf(table.keyOf))
      ensures left ==>
                && search in old(table.keyOf) && old(table.keyOf)[search] == old(search.key)
                && table.keyOf == old(table.keyOf) - {search}
      ensures left ==> ViewOf(table.keyOf) == old(ViewOf(table.keyOf)) - {old(search.key)}
      ensures !stop ==> (left <==> !look.placeholder && !w.busy(tries, look.bucket) && look.aged)
      ensures !stop ==> it == null && slab.chunks == old(slab.chunks)
      ensures !stop ==> look.placeholder || w.busy(tries, look.bucket) || look.refcount != 1
      ensures ready == old(ready) - (if left then {search} else {})
      ensures stop && it == null ==> !left
      ensures stop ==>
                Picked(PickFor(1, look.exptime, w.now, old(slab.CanServe(id, w.reallocOk, w.mallocOk)), w.evictToFree),
                    it, search)
      ensures stop ==> !look.placeholder && !w.busy(tries, look.bucket) && look.refcount == 1
      ensures !stop ==> slab.NoPoorer()
      ensures slab.Growth()
      ensures OneAtMost(it)
      ensures stop && it != null ==> (left <==> it == search)
      ensures Yields(it, ntotal, id, if left then {search} else {}) && Spared(it, if left then {search} else {})
    {
      hide LruList.Valid, Drop, Raw, ViewOf;
      NodeHere(id, pos);
      next := search.prev;
      it, stop, left := null, false, false;
      triesLeft := if Placeholder(search) then tries else tries - 1;
      if !Placeholder(search) && !w.busy(tries, table.bucketOf(search.key)) {
        ghost var k: nat;
        it, stop, left, k := TryItem(search, ntotal, w);
        if left { DropPrefix(old(queues.lists[id]), k, pos); }
      }
    }

    /**
     * Where a scan is: the items after `victim` on the list as it was (`l0`) have all been out of reach or held, and
     * `gone` and `lost` are what has been taken out of the index k0 and the map v0.
     */
    ghost predicate OnTrack(c: Track, id: nat, busy: (nat, nat) -> bool, search: BaseItem?, it: BaseItem?, stop: bool)
      reads this, table, queues, table.keyOf.Keys
    {
      && Injective(table.keyOf)
      && AllAfter(c.seen, c.victim, busy) && TakenOut(c, busy, it)
      && Tally(c.k0, table.keyOf, c.v0, ViewOf(table.keyOf), c.gone, c.lost)
      && (!stop ==>
           && it == null
           && id < |queues.lists| && SameUpTo(queues.lists[id], c.l0, c.victim)
           && search == At(queues.lists[id], c.victim))
    }

    /** The scan starts at the tail. */
    lemma Start(id: nat, now: nat, busy: (nat, nat) -> bool) returns (c: Track)
      requires Valid() && id < |slab.memBase| && Injective(table.keyOf)
      ensures id < |queues.lists| == |queues.tails| && OnTrack(c, id, busy, queues.tails[id], null, false)
      ensures c.k0 == table.keyOf && c.v0 == ViewOf(table.keyOf) && c.l0 == queues.lists[id]
      ensures c.seen == Looks(queues.lists[id], now)
      ensures Paced(c.seen, c.victim, 5, false)
      ensures c.gone == {} && table.keyOf.Keys <= slab.chunks && -1 <= c.victim < |c.l0|
    {
      hide LruList.Valid, ViewOf, Looks, Tally;
      TailHere(id);
      KeysInChunks();
      c := Track(queues.lists[id], table.keyOf, ViewOf(table.keyOf), Looks(queues.lists[id], now), {}, {},
          |queues.lists[id]| - 1);
      NothingTallied(c.k0, c.v0);
    }

    lemma AtRest(c: Track, id: nat, busy: (nat, nat) -> bool, search: BaseItem?, it: BaseItem?, stop: bool, tries: nat)
      requires OnTrack(c, id, busy, search, it, stop) && Paced(c.seen, c.victim, tries, stop)
      ensures OnTrack(c, id, busy, null, it, true) && -1 <= c.victim && Charged(c.seen, c.victim + 1) <= 5
      ensures !stop && (tries == 0 || search == null) ==> c.victim == -1 || Charged(c.seen, c.victim + 1) == 5
    {
    }

    /** What the scan knows of the item it is at. */
    lemma OnTrackHere(c: Track, id: nat, busy: (nat, nat) -> bool, search: BaseItem, it: BaseItem?) returns (spot: Spot)
      requires Valid() && OnTrack(c, id, busy, search, it, false)
      ensures 0 <= c.victim < |c.l0| == |c.seen| && spot == Spot(c.l0, c.victim) && c.l0[c.victim] == search
      ensures search in table.keyOf && search in slab.chunks && search !in c.gone && search in c.k0
    {
      hide LruList.Valid, ViewOf;
      NodeHere(id, c.victim);
      SameAt(queues.lists[id], c.l0, c.victim);
      spot := Spot(c.l0, c.victim);
    }

    /** What one turn spares, the whole scan spares, and whoever was handed out and spared still is. */
    twostate lemma SparedMore(
        new it: BaseItem?, new n: nat, new id: nat, new few: set<BaseItem>, new more: set<BaseItem>)
      requires few <= more && Yields(it, n, id, few) && Spared(it, few)
      ensures Yields(it, n, id, more) && Spared(it, more)
      ensures it == null && slab.chunks == old(slab.chunks) ==> old(HandedOut()) - more <= HandedOut()
    {
      hide LruList.Raw;
      if it == null && slab.chunks == old(slab.chunks) {
        forall x | x in old(HandedOut()) - more ensures x in HandedOut() {
          assert x in slab.chunks && Untouched(x);
        }
      }
    }

    /** A turn keeps the scan on track, or ends it as it should. */
    lemma NowOnTrack(
        c: Track, d: Track, id: nat, w: World, l: seq<BaseItem>, k: map<BaseItem, Key>, v: View, key: Key,
        found: BaseItem, next: BaseItem?, it: BaseItem?, stop: bool, left: bool, can: bool)
      requires 0 <= c.victim < |c.l0| == |c.seen| && c.l0[c.victim] == found && Injective(table.keyOf)
      requires AllAfter(c.seen, c.victim, w.busy) && TakenOut(c, w.busy, null)
      requires Tally(c.k0, k, c.v0, v, c.gone, c.lost)
      requires left ==> found in k && k[found] == key
      requires table.keyOf == (if left then k - {found} else k) && ViewOf(table.keyOf) == if left then v - {key} else v
      requires d == c.(gone := d.gone, lost := d.lost, victim := if stop then c.victim else c.victim - 1)
      requires d.gone == c.gone + (if left then {found} else {}) && d.lost == c.lost + if left then {key} else {}
      requires stop ==>
                 && (left <==> it == found) && Reached(c.seen, c.victim, w.busy) && c.seen[c.victim].refcount == 1
                 && Picked(PickFor(1, c.seen[c.victim].exptime, w.now, can, w.evictToFree), it, found)
      requires !stop ==>
                 && it == null && id < |queues.lists| && SameUpTo(l, c.l0, c.victim)
                 && c.victim <= |queues.lists[id]| && queues.lists[id][..c.victim] == l[..c.victim]
                 && next == At(queues.lists[id], c.victim - 1)
                 && (left <==> Reached(c.seen, c.victim, w.busy) && c.seen[c.victim].aged)
                 && (!Reached(c.seen, c.victim, w.busy) || c.seen[c.victim].refcount != 1)
      ensures OnTrack(d, id, w.busy, next, it, stop) && (stop ==> Judged(d, w, it, can))
    {
      hide ViewOf, Tally, SameUpTo, PickFor, Picked, TakenOut, AllAfter, Judged, Reached;
      if left {
        Tallied(c.k0, k, c.v0, v, c.gone, c.lost, found, key);
      } else {
        assert d.gone == c.gone && d.lost == c.lost;
      }
      if stop {
        Stopped(c, d, w, it, left, can);
      } else {
        SameStep(l, queues.lists[id], c.l0, c.victim);
        Passed(c, d, w.busy, left);
      }
    }

    /** What being on track means before a turn. */
    lemma OnTrackMeans(c: Track, id: nat, busy: (nat, nat) -> bool, search: BaseItem)
      requires OnTrack(c, id, busy, search, null, false)
      ensures Injective(table.keyOf) && AllAfter(c.seen, c.victim, busy) && TakenOut(c, busy, null)
      ensures Tally(c.k0, table.keyOf, c.v0, ViewOf(table.keyOf), c.gone, c.lost)
      ensures id < |queues.lists| && SameUpTo(queues.lists[id], c.l0, c.victim)
    {
    }

    /** One turn of the scan, with what it adds to the tally. */
    method ScanStep(
        found: BaseItem, id: nat, ghost c: Track, tries: nat, ntotal: nat, w: World)
      returns (it: BaseItem?, stop: bool, triesLeft: nat, next: BaseItem?, ghost d: Track)
      requires Valid() && OnTrack(c, id, w.busy, found, null, false)
      requires Paced(c.seen, c.victim, tries, false) && tries > 0
      requires 0 <= c.victim < |c.seen| && c.seen[c.victim] == LookOf(found, w.now)
      requires Fits(ntotal, id)
      modifies this`ready, table, queues, slab
      modifies slab.chunks`refcount, slab.chunks`handles, slab.chunks`leaks, slab.chunks`exptime, slab.chunks`clsid
      modifies slab.chunks`flag, slab.chunks`hNext, slab.chunks`next, slab.chunks`prev
      ensures Valid() && old(slab.chunks) <= slab.chunks && fresh(slab.chunks - old(slab.chunks))
      ensures OnTrack(d, id, w.busy, next, it, stop)
      ensures d == c.(gone := d.gone, lost := d.lost, victim := d.victim)
      ensures c.gone <= d.gone <= c.gone + {found}
      ensures !stop ==> it == null && slab.chunks == old(slab.chunks) && old(HandedOut()) - d.gone <= HandedOut()
      ensures ready == old(ready) - (d.gone - c.gone)
      ensures d.victim == if stop then c.victim else c.victim - 1
      ensures Paced(d.seen, d.victim, triesLeft, stop)
      ensures stop ==>
                Judged(d, w, it, old(slab.CanServe(id, w.reallocOk, w.mallocOk))) && Charged(d.seen, d.victim) <= 5
      ensures !stop ==> slab.NoPoorer()
      ensures slab.Growth() && OneAtMost(it)
      ensures Yields(it, ntotal, id, d.gone)
      ensures Spared(it, d.gone)
    {
      hide LruList.Valid, LruList.InfoOf, Raw, ScalarsOf, ViewOf, Handed, Placeholder, Tally, SameUpTo, Looks, Paced;
      hide PickFor, OnTrack;
      hide LruList.Aged, Charged, TryAt, Repaired, TakenOut, AllAfter, Judged, Reached, HandedOut, LruList.OneAtMost;
      hide Grew;
      hide Slab.CanServe, Slab.NoPoorer, Picked, LruList.LookOf, LruList.Yields, LruList.Spared;
      ghost var spot := OnTrackHere(c, id, w.busy, found, null);
      OnTrackMeans(c, id, w.busy, found);
      ghost var key, l, k, v := found.key, queues.lists[id], table.keyOf, ViewOf(table.keyOf);
      SameAt(l, c.l0, c.victim);
      PacedStep(c.seen, c.victim, tries);
      ReachedMeans(c.seen, c.victim, tries, w.busy);
      ghost var left: bool;
      it, stop, triesLeft, next, left := ScanTurn(found, id, c.victim, c.seen[c.victim], tries, ntotal, w);
      d := c.(gone := c.gone + (if left then {found} else {}), lost := c.lost + (if left then {key} else {}),
              victim := if stop then c.victim else c.victim - 1);
      NowOnTrack(c, d, id, w, l, k, v, key, found, next, it, stop, left,
          old(slab.CanServe(id, w.reallocOk, w.mallocOk)));
      SparedMore(it, ntotal, id, if left then {found} else {}, d.gone);
    }

    /**
     * The eviction scan of do_item_alloc: from the tail of the list of class id towards its head, at most five items
     * that are not placeholders. `busy` says whether the try_lock on a bucket fails at a given try. The scan stops at
     * the oldest item it gets hold of that nobody holds. What it takes out is exactly that item, if it is reused, and
     * the older items it got hold of that were held and aged.
     */
    method ScanTail(id: nat, ntotal: nat, w: World)
      returns (it: BaseItem?, stop: bool, ghost c: Track, ghost can: bool)
      requires Valid() && 0 < id < |slab.memBase| && Injective(table.keyOf)
      requires Fits(ntotal, id)
      modifies this`ready, table, queues, slab
      modifies slab.chunks`refcount, slab.chunks`handles, slab.chunks`leaks, slab.chunks`exptime, slab.chunks`clsid
      modifies slab.chunks`flag, slab.chunks`hNext, slab.chunks`next, slab.chunks`prev
      ensures Valid() && old(slab.chunks) <= slab.chunks && fresh(slab.chunks - old(slab.chunks))
      ensures OnTrack(c, id, w.busy, null, it, true)
      ensures c.k0 == old(table.keyOf) && c.v0 == old(ViewOf(table.keyOf))
      ensures id < |old(queues.lists)| && c.l0 == old(queues.lists[id]) && c.seen == old(Looks(queues.lists[id], w.now))
      ensures ready == old(ready) - c.gone
      ensures !stop ==> slab.chunks == old(slab.chunks) && old(HandedOut()) - c.gone <= HandedOut()
      ensures slab.Growth() && OneAtMost(it)
      ensures old(slab.CanServe(id, w.reallocOk, w.mallocOk)) ==> can
      ensures Charged(c.seen, if stop && c.victim >= 0 then c.victim else c.victim + 1) <= 5
      ensures stop ==> Judged(c, w, it, can)
      ensures !stop ==> it == null && can == slab.CanServe(id, w.reallocOk, w.mallocOk)
      ensures !stop ==> c.victim == -1 || Charged(c.seen, c.victim + 1) == 5
      ensures Yields(it, ntotal, id, c.gone)
      ensures Spared(it, c.gone)
    {
      hide LruList.Valid, LruList.InfoOf, Raw, ScalarsOf, ViewOf, Handed, Placeholder, Looks, OnTrack, HandedOut;
      hide Charged, At, Paced, Judged, Slab.CanServe, Grew, LruList.OneAtMost;
      ghost var c0 := Start(id, w.now, w.busy);
      c := c0;
      it, stop, can := null, false, slab.CanServe(id, w.reallocOk, w.mallocOk);
      var tries := 5;
      var search := queues.tails[id];
      StartsStill();
      while tries > 0 && search != null && !stop
        invariant Valid() && old(slab.chunks) <= slab.chunks && fresh(slab.chunks - old(slab.chunks))
        invariant OnTrack(c, id, w.busy, search, it, stop)
        invariant c == c0.(gone := c.gone, lost := c.lost, victim := c.victim)
        invariant -1 <= c.victim < |c.l0| && Paced(c.seen, c.victim, tries, stop)
        invariant slab.Growth() && OneAtMost(it)
        invariant old(slab.CanServe(id, w.reallocOk, w.mallocOk)) ==> can
        invariant if stop then Judged(c, w, it, can) && 0 <= c.victim && Charged(c.seen, c.victim) <= 5
                  else can == slab.CanServe(id, w.reallocOk, w.mallocOk)
        invariant ready == old(ready) - c.gone
        invariant !stop ==> it == null && slab.chunks == old(slab.chunks) && old(HandedOut()) - c.gone <= HandedOut()
        invariant Yields(it, ntotal, id, c.gone)
        invariant Spared(it, c.gone)
        decreases !stop, c.victim
      {
        ghost var spot := OnTrackHere(c, id, w.busy, search, it);
        StillLooks(w.now, spot);
        ghost var mem, handed := slab.Mem(), HandedOut();
        Took(null);
        label turn:
        it, stop, tries, search, c := ScanStep(search, id, c, tries, ntotal, w);
        GrewOn(old(slab.Mem()), mem, slab.Mem(), slab.memLimit);
        Took@turn(it);
        HandsAdd(handed, it);
        if !stop { can := slab.CanServe(id, w.reallocOk, w.mallocOk); }
      }
      AtRest(c, id, w.busy, search, it, stop, tries);
    }

    /** What a finished scan has taken out. */
    lemma Found(c: Track, id: nat, busy: (nat, nat) -> bool, it: BaseItem?)
      requires OnTrack(c, id, busy, null, it, true)
      ensures Injective(table.keyOf) && table.keyOf == c.k0 - c.gone && ViewOf(table.keyOf) == c.v0 - c.lost
      ensures c.lost == KeysOf(c.gone, c.k0) && c.gone <= c.k0.Keys && TakenOut(c, busy, it)
    {
      hide ViewOf;
    }

    /** The items of a list are linked chunks of its class. */
    ghost predicate ListOk(id: nat)
      reads slab, table, queues, table.keyOf.Keys
    {
      id < |queues.lists| && forall x {:trigger x in queues.lists[id]} :: x in queues.lists[id] ==>
        x.home == id && x in slab.chunks && x in table.keyOf && table.keyOf[x] == x.key
    }

    lemma ListHere(id: nat)
      requires Valid() && id < |slab.memBase|
      ensures ListOk(id)
    {
      hide LruList.Valid;
      TailHere(id);
      forall x | x in queues.lists[id]
        ensures x.home == id && x in slab.chunks && x in table.keyOf && table.keyOf[x] == x.key
      {
        var pos :| 0 <= pos < |queues.lists[id]| && queues.lists[id][pos] == x;
        NodeHere(id, pos);
      }
    }

    // ---------- what an allocation may cost ----------

    /** The least class whose chunks hold n bytes. */
    ghost predicate LeastFit(id: nat, n: nat) { ClassFor(slab.geo, id, n) }

    /** The class that an item of n bytes needs has a free chunk, or could have a page. */
    ghost predicate CanMake(n: nat, w: World)
      reads slab
    {
      exists id: nat :: LeastFit(id, n) && slab.CanServe(id, w.reallocOk, w.mallocOk)
    }

    twostate lemma MakeKept(new n: nat, new w: World)
      requires slab.NoPoorer()
      ensures old(CanMake(n, w)) ==> CanMake(n, w)
    {
      if old(CanMake(n, w)) {
        var id: nat :| LeastFit(id, n) && old(slab.CanServe(id, w.reallocOk, w.mallocOk));
        assert slab.CanServe(id, w.reallocOk, w.mallocOk);
      }
    }

    /** No class holds what slabs_clsid answers 0 for. */
    lemma TooLarge(n: nat, w: World)
      requires GoodTable(slab.geo, slab.powerLargest) && (n == 0 || n > slab.geo[slab.powerLargest].size)
      ensures !CanMake(n, w)
    {
      forall id: nat | 1 <= id < slab.powerLargest ensures slab.geo[id].size < slab.geo[slab.powerLargest].size {
        SizesRise(slab.geo, slab.powerLargest, id, slab.powerLargest);
      }
    }

    lemma OneClass(id: nat, n: nat, w: World)
      requires LeastFit(id, n)
      ensures CanMake(n, w) <==> slab.CanServe(id, w.reallocOk, w.mallocOk)
    {
    }

    /** A linked item that is held and that nobody has linked or bumped for three hours. */
    ghost predicate Tired(x: BaseItem, now: nat)
      reads x
    {
      Aged(x, now) && x.refcount != 1
    }

    /** A linked item nobody holds that has expired, or that may be evicted for want of a chunk. */
    ghost predicate Spare(x: BaseItem, n: nat, w: World)
      reads slab, x
    {
      x.refcount == 1 && ((x.exptime != 0 && x.exptime < w.now) || (w.evictToFree && !CanMake(n, w)))
    }

    /** A linked item of the class in question whose bucket lock is free at some try. */
    ghost predicate InReach(x: BaseItem, n: nat, w: World)
      reads table
    {
      x in table.keyOf && LeastFit(x.home, n) && !Locked(w.busy, table.bucketOf(table.keyOf[x]))
    }

    /** The items that tail repair may take out for an allocation of n bytes. */
    ghost function TiredOnes(n: nat, w: World): set<BaseItem>
      reads table, table.keyOf.Keys
    {
      set x | x in table.keyOf && InReach(x, n, w) && Tired(x, w.now)
    }

    /** The items of which an allocation of n bytes may take one out, to reuse its chunk. */
    ghost function SpareOnes(n: nat, w: World): set<BaseItem>
      reads slab, table, table.keyOf.Keys
    {
      set x | x in table.keyOf && InReach(x, n, w) && Spare(x, n, w)
    }

    /** What the look of a listed item says of it. */
    twostate lemma LookTells(new x: BaseItem, new id: nat, new n: nat, new w: World)
      requires old(ListOk(id)) && LeastFit(id, n) && x in old(queues.lists[id])
      requires !Locked(w.busy, old(LookOf(x, w.now)).bucket)
      ensures x in old(slab.chunks) && x in old(table.keyOf) && old(InReach(x, n, w))
      ensures old(LookOf(x, w.now)).aged && old(LookOf(x, w.now)).refcount != 1 ==> old(Tired(x, w.now))
    {
      hide Locked, LruList.LeastFit, LruList.Aged;
    }

    twostate lemma SpareAt(x: BaseItem, new n: nat, new w: World, new can: bool)
      requires old(LookOf(x, w.now)).refcount == 1 && (old(CanMake(n, w)) ==> can)
      requires Picked(PickFor(1, old(LookOf(x, w.now)).exptime, w.now, can, w.evictToFree), x, x)
      ensures old(Spare(x, n, w))
    {
      hide LruList.CanMake;
    }

    /** The scan takes out only what an allocation may take out. */
    twostate lemma FoundOut(
        new it: BaseItem?, new c: Track, new stop: bool, new can: bool, new id: nat, new n: nat, new w: World)
      requires id < |old(queues.lists)| && old(ListOk(id)) && LeastFit(id, n)
      requires c.l0 == old(queues.lists[id]) && c.seen == old(Looks(queues.lists[id], w.now))
      requires TakenOut(c, w.busy, it) && (if stop then Judged(c, w, it, can) else it == null)
      requires Charged(c.seen, if stop && c.victim >= 0 then c.victim else c.victim + 1) <= 5
      requires old(slab.CanServe(id, w.reallocOk, w.mallocOk)) ==> can
      requires old(CanMake(n, w)) == old(slab.CanServe(id, w.reallocOk, w.mallocOk))
      ensures SpentOn(c.gone, it, old(TiredOnes(n, w)), old(SpareOnes(n, w)))
    {
      hide Charged, Repaired, LruList.CanMake, Slab.CanServe, Reached, LruList.LeastFit, LruList.ListOk;
      hide LruList.InReach, Locked, LruList.LookOf, LruList.Tired;
      GoneAreCharged(c, w.busy, it);
      if stop { ChargedAt(c.seen, c.victim, w.busy); }
      forall x | x in c.gone ensures x in old(TiredOnes(n, w)) || (x == it && x in old(SpareOnes(n, w))) {
        if x in Repaired(c.l0, c.seen, c.victim + 1, w.busy) {
          var j := RepairedAt(c.l0, c.seen, c.victim + 1, w.busy, x);
          ChargedDown(c.seen, if stop && c.victim >= 0 then c.victim else c.victim + 1, c.victim + 1);
          LockWasFree(c.seen, c.victim + 1, j, w.busy);
          assert x in old(queues.lists[id]) && c.seen[j] == old(LookOf(x, w.now));
          LookTells(x, id, n, w);
        } else {
          LockWasFree(c.seen, c.victim, c.victim, w.busy);
          assert x in old(queues.lists[id]) && c.seen[c.victim] == old(LookOf(x, w.now));
          LookTells(x, id, n, w);
          SpareAt(x, n, w, can);
        }
      }
    }

    /** What an allocation of n bytes meets. */
    ghost function BudgetOf(n: nat, w: World): Budget
      reads slab, table, table.keyOf.Keys
    {
      Budget(slab.geo, n, CanMake(n, w), TiredOnes(n, w), SpareOnes(n, w), table.keyOf)
    }

    lemma BudgetSays(n: nat, w: World)
      ensures BudgetOf(n, w).geo == slab.geo && BudgetOf(n, w).need == n
    {
    }

    /** An allocation that takes nothing out. */
    twostate lemma NothingSpent()
      requires table.keyOf == old(table.keyOf) && old(Injective(table.keyOf)) && Injective(table.keyOf)
      requires ViewOf(table.keyOf) == old(ViewOf(table.keyOf)) && casId == old(casId)
      ensures KeysOf({}, old(table.keyOf)) == {} && table.keyOf == old(table.keyOf) - {}
      ensures Abs() == State(old(Abs()).view - {}, casId)
    {
      hide ViewOf;
    }

    /** do_item_alloc once the class is known. */
    method AllocFrom(id: nat, ntotal: nat, w: World)
      returns (it: BaseItem?, ghost gone: set<BaseItem>, ghost lost: set<Key>)
      requires Valid() && 0 < id < |slab.memBase| && Injective(table.keyOf) && LeastFit(id, ntotal)
      modifies this`ready, table, queues, slab
      modifies slab.chunks`refcount, slab.chunks`handles, slab.chunks`leaks, slab.chunks`exptime, slab.chunks`clsid
      modifies slab.chunks`flag, slab.chunks`hNext, slab.chunks`next, slab.chunks`prev
      ensures Valid() && old(slab.chunks) <= slab.chunks && fresh(slab.chunks - old(slab.chunks))
      ensures Yields(it, ntotal, id, gone)
      ensures Injective(table.keyOf) && table.keyOf == old(table.keyOf) - gone && ready == old(ready) - gone
      ensures it == null ==> !old(slab.CanServe(id, w.reallocOk, w.mallocOk))
      ensures Abs() == State(old(Abs()).view - lost, casId)
      ensures lost == KeysOf(gone, old(table.keyOf)) && gone <= old(table.keyOf).Keys
      ensures SpentOn(gone, it, old(TiredOnes(ntotal, w)), old(SpareOnes(ntotal, w))) && slab.Growth() && OneAtMost(it)
      ensures Spared(it, gone)
    {
      hide LruList.Valid, LruList.InfoOf, Raw, ScalarsOf, ViewOf, Handed, Looks, OnTrack, HandedOut;
      hide SpentOn, LruList.TiredOnes, LruList.SpareOnes, LruList.ListOk, LruList.OneAtMost, Judged, Grew, Charged;
      hide KeysOf;
      ghost var c: Track, can: bool;
      var stop: bool;
      ClassTable();
      ListHere(id);
      OneClass(id, ntotal, w);
      it, stop, c, can := ScanTail(id, ntotal, w);
      gone, lost := c.gone, c.lost;
      Found(c, id, w.busy, it);
      FoundOut(it, c, stop, can, id, ntotal, w);
      if !stop {
        ClassTable();
        ghost var mem, handed := slab.Mem(), HandedOut();
        Took(null);
        label scanned:
        it := FreshChunk(ntotal, id, w.reallocOk, w.mallocOk);
        GrewOn(old(slab.Mem()), mem, slab.Mem(), slab.memLimit);
        Took@scanned(it);
        HandsAdd(handed, it);
        WhoeverGets(gone, it, old(TiredOnes(ntotal, w)), old(SpareOnes(ntotal, w)));
      } else if it == null {
        NothingMeansNone(c, w, can);
      }
    }

    /** The sizes that slabs_clsid answers 0 for. */
    ghost predicate TooBig(n: nat)
      reads slab
    {
      slab.powerLargest < |slab.geo| && (n == 0 || n > slab.geo[slab.powerLargest].size)
    }

    method AllocOrRefuse(id: nat, ntotal: nat, w: World)
      returns (it: BaseItem?, ghost gone: set<BaseItem>, ghost lost: set<Key>)
      requires Valid() && if id == 0 then TooBig(ntotal) else id < |slab.memBase| && LeastFit(id, ntotal)
      modifies this`ready, table, queues, slab
      modifies slab.chunks`refcount, slab.chunks`handles, slab.chunks`leaks, slab.chunks`exptime, slab.chunks`clsid
      modifies slab.chunks`flag, slab.chunks`hNext, slab.chunks`next, slab.chunks`prev
      ensures Valid() && old(slab.chunks) <= slab.chunks && fresh(slab.chunks - old(slab.chunks))
      ensures it != null ==>
                Raw(it, ntotal) && it !in table.keyOf && (it in gone || Unheld(it))
      ensures Injective(table.keyOf) && table.keyOf == old(table.keyOf) - gone && ready == old(ready) - gone
      ensures Abs() == State(old(Abs()).view - lost, casId)
      ensures Made(old(BudgetOf(ntotal, w)), it, gone, lost) && gone <= old(table.keyOf).Keys
      ensures slab.Growth() && OneAtMost(it)
      ensures id == 0 ==> it == null && gone == {} && lost == {}
      ensures Spared(it, gone)
    {
      hide LruList.Valid, LruList.InfoOf, LruList.CanMake, Raw, ViewOf, GoodTable, HandedOut, Slab.CanServe;
      hide LruList.TiredOnes, LruList.SpareOnes, SpentOn, KeysOf, Grew, LruList.Abs;
      ClassTable();
      if id == 0 {
        it, gone, lost := null, {}, {};
        TooLarge(ntotal, w);
        StartsStill();
        NothingSpent();
        NoneSpent(old(TiredOnes(ntotal, w)), old(SpareOnes(ntotal, w)));
      } else {
        OneClass(id, ntotal, w);
        it, gone, lost := AllocFrom(id, ntotal, w);
      }
    }

    /**
     * do_item_alloc for an item of ntotal bytes: from the scan, or from the slab when the scan ends without a
     * candidate. The item it returns belongs to the least class that fits, is in nobody's structures and holds one
     * reference, its client's. Only items of buckets whose lock was free can have been unlinked for it.
     */
    method DoItemAlloc(ntotal: nat, w: World)
      returns (it: BaseItem?, ghost gone: set<BaseItem>, ghost lost: set<Key>)
      requires Valid()
      modifies this`ready, table, queues, slab
      modifies slab.chunks`refcount, slab.chunks`handles, slab.chunks`leaks, slab.chunks`exptime, slab.chunks`clsid
      modifies slab.chunks`flag, slab.chunks`hNext, slab.chunks`next, slab.chunks`prev
      ensures Valid() && old(slab.chunks) <= slab.chunks && fresh(slab.chunks - old(slab.chunks))
      ensures it != null ==>
                Raw(it, ntotal) && it !in table.keyOf && (it in gone || Unheld(it))
      ensures Injective(table.keyOf) && table.keyOf == old(table.keyOf) - gone && ready == old(ready) - gone
      ensures Abs() == State(old(Abs()).view - lost, casId)
      ensures Made(old(BudgetOf(ntotal, w)), it, gone, lost) && gone <= old(table.keyOf).Keys
      ensures slab.Growth() && OneAtMost(it)
      ensures ntotal > slab.geo[slab.powerLargest].size ==> it == null && gone == {} && lost == {}
      ensures Spared(it, gone)
    {
      hide LruList.Valid, LruList.InfoOf, LruList.CanMake, Raw, ViewOf, GoodTable, HandedOut, Made;
      hide Grew, LruList.Abs, LruList.BudgetOf;
      ClassTable();
      var id := SlabsClsid(slab.geo, slab.powerLargest, ntotal);
      it, gone, lost := AllocOrRefuse(id, ntotal, w);
    }

    // ---------- storing ----------

    /** The client of an offered item still holds it, whether or not it has been linked. */
    twostate predicate StillMine(it: BaseItem)
      reads this, slab, it
    {
      && Handed(it) && it.refcount > 0 && it.handles == old(it.handles) && it.leaks == old(it.leaks)
      && it.key == old(it.key) && (it in ready <==> it in old(ready)) && (it !in ready ==> it.flag == old(it.flag))
    }

    twostate lemma MineMeans(it: BaseItem)
      requires StillMine(it)
      ensures Handed(it) && it.refcount > 0 && it.handles == old(it.handles) && (it in ready <==> it in old(ready))
      ensures it.key == old(it.key) && it.leaks == old(it.leaks) && (it !in ready ==> it.flag == old(it.flag))
    {
    }

    /** An item a client has filled in and holds, linked nowhere. A dirty flag byte keeps it out of `ready`. */
    ghost predicate Offered(it: BaseItem)
      reads this, slab, table, it
    {
      && Handed(it) && it !in table.keyOf && (it in ready <==> !it.flag.Dirty()) && it.refcount > 0
      && (it in ready ==> it.handles > 0)
    }

    twostate lemma WasReadyHere(it: BaseItem)
      requires old(Valid()) && it in old(ready) && it !in old(table.keyOf)
      ensures old(it.refcount) == old(it.handles) + old(it.leaks)
    {
      hide Slab.Valid, HashTable.Valid, LruQueues.Valid, Cross, ItemsOk;
      WasReady(old(Now()), it);
    }

    /** An offered item that only its client referred to has one reference, and one more if it has been linked. */
    twostate lemma MineAlone(it: BaseItem)
      requires old(Valid()) && Valid() && old(Offered(it)) && StillMine(it) && old(it.refcount) == 1
      ensures it in ready <==> !old(it.flag.Dirty())
      ensures it in ready ==> it.refcount == 1 + if it.flag.linked then 1 else 0
    {
      hide LruList.Valid;
      if it in ready {
        ReadyHere(it);
        WasReadyHere(it);
      }
    }

    twostate lemma MineStill(it: BaseItem)
      requires old(Offered(it)) && Untouched(it)
      ensures StillMine(it)
    {
    }

    twostate lemma BoundOnMap(it: BaseItem)
      requires old(Injective(table.keyOf)) && it !in old(table.keyOf) && !old(it.flag.Dirty())
      requires forall x :: x in old(table.keyOf) ==> old(table.keyOf)[x] != it.key
      requires table.keyOf == Insert(old(table.keyOf), it, it.key) && casId == old(casId) + 1 == it.cas
      requires forall x {:trigger x in old(table.keyOf)} :: x in old(table.keyOf) ==> EntryOf(x) == old(EntryOf(x))
      requires it.flag.rest == old(it.flag.rest)
      ensures Injective(table.keyOf) && Abs() == Bind(old(Abs()), it.key, it.value, it.exptime, old(it.flag))
      ensures table.keyOf.Keys == old(table.keyOf).Keys + {it}
    {
      hide Insert, ViewOf, Bind;
      ViewPut(KeyCut(old(table.keyOf), it));
      BindLinks(old(Abs()), it.key, it.value, it.exptime, old(it.flag));
    }

    twostate lemma RefusedOnMap(it: BaseItem)
      requires old(Injective(table.keyOf)) && table.keyOf == old(table.keyOf) && casId == old(casId)
      requires old(it.flag.Dirty()) && it.key !in old(ViewOf(table.keyOf))
      requires forall x {:trigger x in table.keyOf} :: x in table.keyOf ==> EntryOf(x) == old(EntryOf(x))
      ensures Abs() == Bind(old(Abs()), it.key, it.value, it.exptime, old(it.flag))
    {
      hide ViewOf, Bind;
      SameView(table.keyOf);
      BindRefused(old(Abs()), it.key, it.value, it.exptime, old(it.flag));
    }

    lemma OfferedFacts(it: BaseItem)
      requires Offered(it)
      ensures it !in table.keyOf && it in slab.chunks && (if it in ready then it.handles > 0 else it.flag.Dirty())
    {
    }

    /** do_item_link of an offered item whose key is unbound, seen on the map. */
    method LinkOnMap(it: BaseItem, now: nat) returns (r: int)
      requires Valid() && Offered(it) && clock <= now && Injective(table.keyOf) && it.key !in ViewOf(table.keyOf)
      modifies this`casId, this`clock, table, queues, it`flag, it`realtime, it`cas, it`refcount, it`hNext, it`next
      modifies it`prev, slab.chunks`prev
      ensures Valid() && r == (if it in ready then 1 else 0) && (clock == old(clock) || clock == now)
      ensures Injective(table.keyOf) && Abs() == Bind(old(Abs()), it.key, it.value, it.exptime, old(it.flag))
      ensures table.keyOf.Keys == old(table.keyOf).Keys + (if it in ready then {it} else {})
      ensures it.refcount >= old(it.refcount)
      ensures if it in ready then it.cas == casId && it.realtime == now else it.flag == old(it.flag)
    {
      hide LruList.Valid, LruList.Handed, Insert, ViewOf, Bind, Without, LruList.Abs;
      OfferedFacts(it);
      KeysInChunks();
      UnboundKey(table.keyOf, it.key);
      r := DoItemLink(it, now);
      if r == 1 { BoundOnMap(it); } else { RefusedOnMap(it); }
    }

    /** The same, and the client still holds the item. */
    method LinkOffered(it: BaseItem, now: nat) returns (r: int)
      requires Valid() && Offered(it) && clock <= now && Injective(table.keyOf) && it.key !in ViewOf(table.keyOf)
      modifies this`casId, this`clock, table, queues, it`flag, it`realtime, it`cas, it`refcount, it`hNext, it`next
      modifies it`prev, slab.chunks`prev
      ensures Valid() && r == (if it in ready then 1 else 0) && (clock == old(clock) || clock == now)
      ensures Injective(table.keyOf) && Abs() == Bind(old(Abs()), it.key, it.value, it.exptime, old(it.flag))
      ensures table.keyOf.Keys == old(table.keyOf).Keys + (if it in ready then {it} else {})
      ensures StillMine(it) && (it in ready ==> it.cas == casId && it.realtime == now)
      ensures forall x {:trigger x in slab.chunks} :: x in slab.chunks && x != it ==> Untouched(x)
    {
      hide LruList.Valid, LruList.Abs, Bind, ViewOf;
      OfferedFacts(it);
      r := LinkOnMap(it, now);
    }

    /** do_item_unlink of an item that is held, seen on the map. */
    method UnlinkBound(it: BaseItem)
      requires Valid() && it in ready && it in table.keyOf && Injective(table.keyOf) && it.refcount > 1
      modifies this`ready, table, queues, slab`memBase, slab`free, slab`out, it`refcount, it`handles, it`leaks
      modifies it`exptime, it`clsid, it`flag
      modifies slab.chunks`hNext, slab.chunks`next, slab.chunks`prev
      ensures Valid() && slab.chunks == old(slab.chunks) && ready == old(ready)
      ensures OneAtMost(null)
      ensures table.keyOf == old(table.keyOf) - {it} && Injective(table.keyOf)
      ensures Abs() == State(Without(old(Abs()).view, old(table.keyOf)[it]), casId)
      ensures Handed(it) && it.refcount == old(it.refcount) - 1 && it.handles == old(it.handles)
      ensures it.leaks == old(it.leaks)
      ensures forall x {:trigger x in slab.chunks} :: x in slab.chunks && x != it ==> Untouched(x)
    {
      hide LruList.Valid, LruList.InfoOf, Drop, Without, ViewOf, Abs;
      ReadyHere(it);
      ghost var k := UnlinkHeld(it);
    }

    /** do_item_replace: the old item leaves, and the offered one takes its key. */
    method DoItemReplace(it: BaseItem, newIt: BaseItem, now: nat) returns (r: int)
      requires Valid() && it in ready && it in table.keyOf && it.refcount > 1 && Injective(table.keyOf)
      requires Offered(newIt) && newIt.key == table.keyOf[it] && clock <= now
      modifies this`ready, this`casId, this`clock, table, queues, slab`memBase, slab`free, slab`out
      modifies it`refcount, it`handles, it`leaks, it`exptime, it`clsid, it`flag
      modifies newIt`flag, newIt`realtime, newIt`cas, newIt`refcount, slab.chunks`hNext, slab.chunks`next
      modifies slab.chunks`prev
      ensures Valid() && slab.chunks == old(slab.chunks) && ready == old(ready) && (clock == old(clock) || clock == now)
      ensures r == if newIt in ready then 1 else 0
      ensures OneAtMost(null)
      ensures Injective(table.keyOf)
      ensures Abs() == Bind(old(Abs()), newIt.key, newIt.value, newIt.exptime, old(newIt.flag))
      ensures table.keyOf.Keys == old(table.keyOf).Keys - {it} + (if newIt in ready then {newIt} else {})
      ensures Handed(it) && it.refcount == old(it.refcount) - 1 && it.handles == old(it.handles)
      ensures it.leaks == old(it.leaks)
      ensures StillMine(newIt) && (newIt in ready ==> newIt.cas == casId && newIt.realtime == now)
      ensures forall x {:trigger x in slab.chunks} :: x in slab.chunks && x != it && x != newIt ==> Untouched(x)
    {
      hide LruList.Valid, ViewOf, Without, Bind;
      ReadyHere(it);
      if it.flag.slabbed {
        return 0;
      }
      UnlinkBound(it);
      BindAfter(old(Abs()), newIt.key, newIt.value, newIt.exptime, newIt.flag);
      r := LinkOffered(newIt, now);
    }

    /** do_item_touch: a lookup that also overwrites the expiry. */
    method DoItemTouch(key: Key, exptime: nat, now: nat) returns (it: BaseItem?)
      requires Valid()
      modifies this`ready, table, queues, slab`memBase, slab`free, slab`out
      modifies slab.chunks`refcount, slab.chunks`handles, slab.chunks`leaks, slab.chunks`exptime, slab.chunks`clsid
      modifies slab.chunks`flag, slab.chunks`hNext, slab.chunks`next, slab.chunks`prev
      ensures Valid() && slab.chunks == old(slab.chunks)
      ensures Abs() == Apply(Live(old(Abs()), key, now), Touch(key, exptime))
      ensures it == null <==> key !in Abs().view
      ensures it != null ==> it in ready && it.handles == old(it.handles) + 1
      ensures forall x {:trigger x in slab.chunks} :: x in slab.chunks && !old(Owner(x, key)) ==> Untouched(x)
    {
      hide LruList.OnlySeen;
      hide LruList.Valid, Live, ViewOf, ScalarsOf;
      it := DoItemGet(key, now);
      if it != null {
        ReadyHere(it);
        label found:
        SetMeta(it, it.refcount, it.flag, exptime, it.handles, it.leaks);
        KeysInChunks();
        ViewTouched@found(KeyCut(table.keyOf, it));
      }
    }

    /** it->cas++ on an item that is not linked. */
    method BumpCas(it: BaseItem)
      requires Valid() && Handed(it) && it !in table.keyOf
      modifies it`cas
      ensures Valid() && it.cas == old(it.cas) + 1
    {
      hide Change.Local, Slab.Valid, HashTable.Valid, LruQueues.Valid, Cross, ItemsOk, ScalarsOf;
      ghost var p := Now();
      HandedApart(slab, it);
      ItemAt(p, it);
      SameLocal(p, it);
      it.cas := it.cas + 1;
      SlabSees(slab);
      TableSees(table);
      QueuesSee(queues);
      ItemsKept(Change(p, Now(), it));
    }

    /** The item a store has looked up: bound to the key, and held by the store. */
    ghost predicate Held(oldIt: BaseItem, key: Key)
      reads this, table, oldIt
    {
      oldIt in ready && Owner(oldIt, key) && oldIt.handles > 0 && oldIt.refcount > 1
    }

    lemma HeldFacts(oldIt: BaseItem, it: BaseItem)
      requires Valid() && Held(oldIt, it.key) && Offered(it)
      ensures Injective(table.keyOf) && oldIt in ready && oldIt in table.keyOf
      ensures table.keyOf[oldIt] == it.key == oldIt.key
      ensures it !in table.keyOf && it != oldIt && Handed(it) && Handed(oldIt) && oldIt in slab.chunks
      ensures oldIt.refcount > 1 && oldIt.handles > 0
    {
      hide LruList.Valid;
      ReadyHere(oldIt);
    }

    twostate lemma RawApart(new newIt: BaseItem, new ntotal: nat, x: BaseItem)
      requires Raw(newIt, ntotal)
      ensures newIt in slab.chunks && newIt !in ready && (x in ready ==> x != newIt)
      ensures x in old(slab.chunks) && old(Handed(x)) && Unheld(newIt) ==> x != newIt
    {
    }

    twostate lemma StillSame(x: BaseItem)
      requires Untouched(x)
      ensures x.handles == old(x.handles) && x.exptime == old(x.exptime) && x.leaks == old(x.leaks)
    {
    }

    twostate lemma StillHeld(new key: Key, x: BaseItem)
      requires old(Held(x, key)) && Untouched(x) && x in table.keyOf && table.keyOf[x] == key
      ensures Held(x, key)
    {
    }

    twostate lemma StillOffered(x: BaseItem)
      requires old(Offered(x)) && Untouched(x) && x !in table.keyOf
      ensures Offered(x)
    {
    }

    /**
     * Who has the key after a store: the offered item or the one built, linked now, if it replied STORED; else the item
     * that was looked up, with its expiry.
     */
    twostate predicate Placing(
        new oldIt: BaseItem?, new it: BaseItem, new newIt: BaseItem?, new stored: bool, new now: nat)
      reads table, it, Only(oldIt), Only(newIt)
    {
      && (oldIt != null ==>
           if stored then oldIt !in table.keyOf
           else oldIt in old(table.keyOf) ==> oldIt.exptime == old(oldIt.exptime))
      && (it in table.keyOf ==> stored && it.realtime == now)
      && (newIt != null && newIt in table.keyOf ==> stored && newIt.realtime == now)
    }

    /** The last branch of do_store_item: the item's own id is bumped, and it replaces the old item or is linked. */
    method PutOffered(oldIt: BaseItem?, it: BaseItem, now: nat)
      requires Valid() && Injective(table.keyOf) && Offered(it) && clock <= now
      requires oldIt == null ==> it.key !in ViewOf(table.keyOf)
      requires oldIt != null ==> Held(oldIt, it.key)
      modifies this`ready, this`casId, this`clock, table, queues, slab`memBase, slab`free, slab`out, it`flag
      modifies it`realtime, it`cas, it`refcount
      modifies Only(oldIt)`refcount, Only(oldIt)`handles, Only(oldIt)`leaks, Only(oldIt)`exptime, Only(oldIt)`clsid
      modifies Only(oldIt)`flag, slab.chunks`hNext, slab.chunks`next, slab.chunks`prev
      ensures clock == old(clock) || clock == now
      ensures Valid() && slab.chunks == old(slab.chunks) && ready == old(ready)
      ensures OneAtMost(null) && table.keyOf.Keys <= old(table.keyOf).Keys + {it}
      ensures Injective(table.keyOf) && Abs() == Bind(old(Abs()), it.key, it.value, it.exptime, old(it.flag))
      ensures StillMine(it) && (it in ready ==> it.cas == casId && it.realtime == now)
      ensures Placing(oldIt, it, null, true, now)
      ensures oldIt != null ==>
                && Handed(oldIt) && oldIt !in table.keyOf && oldIt.refcount > 0 && oldIt.handles == old(oldIt.handles)
                && oldIt.leaks == old(oldIt.leaks)
      ensures forall x {:trigger x in slab.chunks} :: x in slab.chunks && x != oldIt && x != it ==> Untouched(x)
    {
      hide LruList.Valid, LruList.InfoOf, ViewOf, Bind, Abs;
      BumpCas(it);
      KeysInChunks();
      SameView(table.keyOf);
      var r: int;
      if oldIt != null {
        r := DoItemReplace(oldIt, it, now);
      } else {
        r := LinkOffered(it, now);
      }
      KeysInChunks();
    }

    /** Nothing is taken out of a bucket that somebody has locked. */
    twostate lemma LockedIsSpared(new gone: set<BaseItem>, new it: BaseItem?, new n: nat, new w: World, new key: Key)
      requires SpentOn(gone, it, old(TiredOnes(n, w)), old(SpareOnes(n, w))) && Locked(w.busy, table.bucketOf(key))
      ensures forall x {:trigger x in gone} :: x in gone ==> x in old(table.keyOf) && old(table.keyOf)[x] != key
      ensures key !in KeysOf(gone, old(table.keyOf))
    {
      hide Locked, LruList.LeastFit, LruList.Tired, LruList.Spare;
    }

    /** The allocation of an append or prepend, made under the lock of its own bucket, spares both items at hand. */
    method AllocApart(oldIt: BaseItem, it: BaseItem, ntotal: nat, w: World)
      returns (newIt: BaseItem?, ghost gone: set<BaseItem>, ghost lost: set<Key>)
      requires Valid() && Injective(table.keyOf) && Held(oldIt, it.key) && Offered(it)
      requires Locked(w.busy, table.bucketOf(it.key))
      modifies this`ready, table, queues, slab
      modifies slab.chunks`refcount, slab.chunks`handles, slab.chunks`leaks, slab.chunks`exptime, slab.chunks`clsid
      modifies slab.chunks`flag, slab.chunks`hNext, slab.chunks`next, slab.chunks`prev
      ensures Valid() && old(slab.chunks) <= slab.chunks && fresh(slab.chunks - old(slab.chunks))
      ensures Injective(table.keyOf)
      ensures Abs() == State(old(Abs()).view - lost, casId) && it.key !in lost
      ensures OneAtMost(newIt) && Fresh(newIt, gone) && table.keyOf.Keys <= old(table.keyOf).Keys
      ensures slab.Growth() && Made(old(BudgetOf(ntotal, w)), newIt, gone, lost)
      ensures newIt != null ==>
                && Raw(newIt, ntotal) && newIt in slab.chunks && newIt !in table.keyOf && newIt != it && newIt != oldIt
                && newIt !in ready
      ensures it.handles == old(it.handles) && oldIt.exptime == old(oldIt.exptime)
      ensures oldIt.handles == old(oldIt.handles) && oldIt.leaks == old(oldIt.leaks)
      ensures oldIt !in gone && it !in gone && Held(oldIt, it.key) && Offered(it) && gone <= old(table.keyOf).Keys
      ensures ready == old(ready) - gone
      ensures forall x {:trigger x in slab.chunks} :: x in old(slab.chunks) && x != newIt && x !in gone ==> Untouched(x)
    {
      hide SpentOn, LruList.TiredOnes, LruList.SpareOnes, LruList.OneAtMost;
      hide KeysOf, Grew, Locked, LruList.InReach, LruList.HandedOut, LruList.Abs;
      hide LruList.CanMake, LruList.Valid, LruList.Untouched, ViewOf, ScalarsOf, LeastFit, Held, Offered, Raw;
      HeldFacts(oldIt, it);
      KeysInChunks();
      newIt, gone, lost := DoItemAlloc(ntotal, w);
      LockedIsSpared(gone, newIt, ntotal, w, it.key);
      if newIt != null {
        RawApart(newIt, ntotal, oldIt);
        RawApart(newIt, ntotal, it);
      }
      StillSame(oldIt);
      StillSame(it);
      StillHeld(it.key, oldIt);
      StillOffered(it);
    }

    /** What a join meets. */
    ghost function JoinBudget(oldIt: BaseItem?, it: BaseItem, cmd: Cmd, w: World): Budget
      reads slab, table, table.keyOf.Keys, Only(oldIt), it
    {
      BudgetOf(if oldIt == null then 0 else ItemTotal(it.key, Join(cmd, oldIt.value, it.value)), w)
    }

    /** What is charged for a filled item is no more than its chunk holds. */
    lemma ReadyFits(x: BaseItem)
      requires Valid() && x in ready
      ensures Fits(ItemTotal(x.key, x.value), x.home)
    {
      hide Slab.Valid, HashTable.Valid, LruQueues.Valid;
      ReadyAt(Now(), x);
    }

    /** The new item is filled in; nothing else notices. */
    method FillApart(oldIt: BaseItem, it: BaseItem, newIt: BaseItem, value: Blob)
      requires Valid() && Injective(table.keyOf) && Held(oldIt, it.key) && Offered(it)
      requires Raw(newIt, ItemTotal(it.key, value)) && newIt !in table.keyOf && newIt != it && newIt != oldIt
      requires newIt in slab.chunks
      modifies this`ready, newIt`key, newIt`value, newIt`exptime, newIt`cas, newIt`flag
      ensures Valid() && ready == old(ready) + {newIt} && Abs() == old(Abs())
      ensures Held(oldIt, it.key) && Offered(it) && Offered(newIt) && newIt.refcount == 1 && newIt.handles == 1
      ensures newIt.leaks == 0
      ensures newIt.flag == CLEAN && newIt.key == it.key && newIt.exptime == oldIt.exptime && newIt.value == value
      ensures forall x {:trigger x in slab.chunks} :: x in slab.chunks && x != newIt ==> Untouched(x)
    {
      hide LruList.Valid, ViewOf, ScalarsOf;
      HeldFacts(oldIt, it);
      KeysInChunks();
      Fill(newIt, oldIt.key, value, oldIt.exptime, newIt.cas, CLEAN);
      SameView(table.keyOf);
    }

    /** The item an append or prepend builds: the key and expiry of the old item, no flags, and both blobs joined. */
    method JoinItem(oldIt: BaseItem, it: BaseItem, cmd: Cmd, w: World)
      returns (newIt: BaseItem?, ghost gone: set<BaseItem>, ghost lost: set<Key>)
      requires Valid() && Injective(table.keyOf) && Joins(cmd) && Held(oldIt, it.key) && Offered(it)
      requires |it.value| >= 2 && |oldIt.value| >= 2
      requires Locked(w.busy, table.bucketOf(it.key))
      modifies this`ready, table, queues, slab
      modifies slab.chunks`refcount, slab.chunks`handles, slab.chunks`leaks, slab.chunks`exptime, slab.chunks`clsid
      modifies slab.chunks`flag, slab.chunks`hNext, slab.chunks`next, slab.chunks`prev
      modifies slab.chunks`key, slab.chunks`value, slab.chunks`cas
      ensures Valid() && old(slab.chunks) <= slab.chunks && fresh(slab.chunks - old(slab.chunks))
      ensures Injective(table.keyOf)
      ensures Abs() == State(old(Abs()).view - lost, casId) && it.key !in lost
      ensures OneAtMost(newIt) && Fresh(newIt, gone) && table.keyOf.Keys <= old(table.keyOf).Keys
      ensures slab.Growth() && Made(old(JoinBudget(oldIt, it, cmd, w)), newIt, gone, lost)
      ensures newIt != null ==>
                && Offered(newIt) && newIt in slab.chunks && newIt !in old(ready) - gone && newIt != it
                && newIt != oldIt && newIt.refcount == 1 && newIt.handles == 1 && newIt.leaks == 0
                && newIt.flag == CLEAN
                && newIt.key == it.key && newIt.exptime == oldIt.exptime
                && newIt.value == Join(cmd, oldIt.value, it.value)
                && Fits(ItemTotal(newIt.key, newIt.value), newIt.home)
      ensures it.key == old(it.key) && it.value == old(it.value) && it.cas == old(it.cas)
      ensures it.handles == old(it.handles)
      ensures oldIt.value == old(oldIt.value) && oldIt.exptime == old(oldIt.exptime)
      ensures oldIt.handles == old(oldIt.handles) && oldIt.leaks == old(oldIt.leaks)
      ensures oldIt !in gone && it !in gone && Held(oldIt, it.key) && Offered(it) && gone <= old(table.keyOf).Keys
      ensures ready == old(ready) - gone + (if newIt == null then {} else {newIt})
      ensures forall x {:trigger x in slab.chunks} :: x in old(slab.chunks) && x != newIt && x !in gone ==> Untouched(x)
    {
      hide LruList.OneAtMost, LruList.Fresh, LruList.BudgetOf, Made, Grew, Locked;
      hide LruList.CanMake, LruList.Valid, LruList.InfoOf, ViewOf, ScalarsOf, Held, Offered, Raw, Join, ItemTotal, Abs;
      JoinLength(it.key, cmd, oldIt.value, it.value);
      HeldFacts(oldIt, it);
      var nbytes, value := |it.value| + |oldIt.value| - 2, Join(cmd, oldIt.value, it.value);
      newIt, gone, lost := AllocApart(oldIt, it, HEADER + |it.key| + 1 + nbytes, w);
      if newIt != null {
        FillApart(oldIt, it, newIt, value);
        ReadyFits(newIt);
      }
    }

    /** The append or prepend branch once the ids agree: build the joined item and put it in the old one's place. */
    method StoreJoined(oldIt: BaseItem, it: BaseItem, cmd: Cmd, w: World)
      returns (newIt: BaseItem?, ghost gone: set<BaseItem>, ghost lost: set<Key>)
      requires Valid() && Injective(table.keyOf) && Joins(cmd) && Held(oldIt, it.key) && Offered(it) && clock <= w.now
      requires |it.value| >= 2 && |oldIt.value| >= 2
      requires Locked(w.busy, table.bucketOf(it.key))
      modifies this`ready, this`casId, this`clock, table, queues, slab
      modifies slab.chunks`refcount, slab.chunks`handles, slab.chunks`leaks, slab.chunks`exptime, slab.chunks`clsid
      modifies slab.chunks`flag, slab.chunks`hNext, slab.chunks`next, slab.chunks`prev
      modifies slab.chunks`key, slab.chunks`value, slab.chunks`cas, slab.chunks`realtime
      ensures clock == old(clock) || clock == w.now
      ensures Valid() && old(slab.chunks) <= slab.chunks && fresh(slab.chunks - old(slab.chunks))
      ensures Injective(table.keyOf)
      ensures StillMine(it)
      ensures it.key !in lost && it.key == old(it.key) && it.value == old(it.value) && it.handles == old(it.handles)
      ensures OneAtMost(newIt) && Fresh(newIt, gone) && table.keyOf.Keys <= old(table.keyOf).Keys + Only(newIt)
      ensures slab.Growth() && Made(old(JoinBudget(oldIt, it, cmd, w)), newIt, gone, lost)
      ensures newIt == null ==> Abs() == State(old(Abs()).view - lost, old(casId))
      ensures newIt != null ==>
                Abs() == Bind(State(old(Abs()).view - lost, old(casId)), it.key, Join(cmd, old(oldIt.value), it.value),
                    old(oldIt.exptime), CLEAN)
      ensures newIt != null ==>
                && Handed(newIt) && newIt != it && newIt != oldIt && newIt !in old(ready) - gone
                && newIt.refcount > 0 && newIt.handles == 1 && newIt.cas == casId && newIt.key == it.key
                && newIt.leaks == 0 && newIt.realtime == w.now && oldIt !in table.keyOf
      ensures oldIt.key == it.key
      ensures oldIt !in gone && Handed(oldIt) && oldIt.refcount > 0 && oldIt.handles == old(oldIt.handles)
      ensures oldIt.leaks == old(oldIt.leaks) && (newIt == null ==> oldIt.exptime == old(oldIt.exptime))
      ensures it !in gone && gone <= old(table.keyOf).Keys && ready == old(ready) - gone + Only(newIt)
      ensures forall x {:trigger x in slab.chunks} ::
                  x in old(slab.chunks) && x != oldIt && x != newIt && x !in gone ==> Untouched(x)
    {
      hide LruList.HandedOut, LruList.OneAtMost, LruList.Fresh, LruList.JoinBudget, Made, Grew, Locked;
      hide LruList.CanMake, LruList.Valid, LruList.InfoOf, ViewOf, ScalarsOf, Offered, Held, Handed, Join, Abs, Bind;
      HeldFacts(oldIt, it);
      OfferedFacts(it);
      newIt, gone, lost := JoinItem(oldIt, it, cmd, w);
      HeldFacts(oldIt, it);
      if newIt != null {
        Took(newIt);
        ghost var handed := HandedOut();
        label joined:
        PutOffered(oldIt, newIt, w.now);
        Took@joined(null);
        HandsOn(handed, newIt);
      }
      MineStill(it);
    }

    /** What do_store_item holds after its lookup. */
    ghost predicate LookedUp(oldIt: BaseItem?, it: BaseItem)
      requires Injective(table.keyOf)
      reads this, slab, table, it, table.keyOf.Keys, Only(oldIt)
    {
      && Offered(it) && |it.value| >= 2
      && (if oldIt == null then it.key !in ViewOf(table.keyOf) else Held(oldIt, it.key) && |oldIt.value| >= 2)
    }

    /**
     * The items a store has looked up, was offered, and has built are all held still; the last has not been seen
     * before.
     */
    twostate predicate Leaves(new oldIt: BaseItem?, new it: BaseItem, new newIt: BaseItem?, new gone: set<BaseItem>)
      reads this, slab, Only(oldIt), Only(newIt), it
    {
      && it in old(slab.chunks) && (oldIt != null ==> oldIt in old(slab.chunks))
      && (newIt != null ==>
           && oldIt != null && newIt in ready && Handed(newIt) && newIt != it && newIt != oldIt
           && newIt !in old(ready) - gone
           && newIt.refcount > 0 && newIt.handles == 1 && newIt.leaks == 0 && newIt.key == it.key)
      && (oldIt != null ==>
           && oldIt !in gone && oldIt in ready && Handed(oldIt) && oldIt.refcount > 0
           && oldIt.handles == old(oldIt.handles) && oldIt.leaks == old(oldIt.leaks)
           && oldIt.key == it.key)
      && StillMine(it) && it !in gone && Fresh(newIt, gone)
    }

    /** Only these can be bound to the key. */
    ghost predicate Heirs(key: Key, who: set<BaseItem>)
      reads table
    {
      forall x {:trigger x in table.keyOf} :: x in table.keyOf && table.keyOf[x] == key ==> x in who
    }

    twostate lemma KeyStays(x: BaseItem)
      requires Untouched(x)
      ensures x.key == old(x.key)
    {
    }

    /** After a store only the item it looked up, the one it was offered and the one it built can have the key. */
    twostate lemma HeirsAre(new oldIt: BaseItem?, new it: BaseItem, new newIt: BaseItem?, new gone: set<BaseItem>)
      requires Injective(table.keyOf) && old(Injective(table.keyOf)) && table.keyOf.Keys <= ready <= slab.chunks
      requires old(table.keyOf).Keys <= old(slab.chunks)
      requires forall x {:trigger x in table.keyOf} :: x in table.keyOf ==> table.keyOf[x] == x.key
      requires forall x {:trigger x in old(table.keyOf)} :: x in old(table.keyOf) ==> old(table.keyOf)[x] == old(x.key)
      requires Leaves(oldIt, it, newIt, gone) && Spared(newIt, gone + Only(oldIt) + {it})
      requires table.keyOf.Keys <= old(table.keyOf).Keys + {it} + Only(newIt)
      requires ready == old(ready) - gone + Only(newIt)
      requires if oldIt == null then old(it.key !in ViewOf(table.keyOf))
               else oldIt in old(table.keyOf) && old(table.keyOf)[oldIt] == old(it.key)
      ensures Heirs(it.key, Only(oldIt) + {it} + Only(newIt))
    {
      hide LruList.InfoOf, ViewOf;
      forall x | x in table.keyOf && x !in Only(oldIt) + {it} + Only(newIt) ensures table.keyOf[x] != it.key {
        assert x in slab.chunks && Untouched(x);
        KeyStays(x);
      }
    }

    /** The same after a store: what it took out is not linked any more, and the rest has its key. */
    twostate lemma ShownSpared(new oldIt: BaseItem?, new it: BaseItem, new newIt: BaseItem?, new gone: set<BaseItem>)
      requires Injective(table.keyOf) && old(Injective(table.keyOf)) && table.keyOf.Keys <= ready <= slab.chunks
      requires old(table.keyOf).Keys <= old(slab.chunks)
      requires forall x {:trigger x in table.keyOf} :: x in table.keyOf ==> table.keyOf[x] == x.key
      requires forall x {:trigger x in old(table.keyOf)} :: x in old(table.keyOf) ==> old(table.keyOf)[x] == old(x.key)
      requires Leaves(oldIt, it, newIt, gone) && Spared(newIt, gone + Only(oldIt) + {it})
      requires table.keyOf.Keys <= old(table.keyOf).Keys + {it} + Only(newIt)
      requires ready == old(ready) - gone + Only(newIt)
      ensures SameShown(old(ShownOf(table.keyOf)), ShownOf(table.keyOf), it.key)
    {
      hide LruList.InfoOf, SameShown, ShownOf;
      ShownBy(it.key, {it} + Only(oldIt) + Only(newIt));
    }

    /** What the map says of the item a store has looked up. */
    lemma EntryHere(oldIt: BaseItem?, it: BaseItem)
      requires Valid() && Injective(table.keyOf) && LookedUp(oldIt, it)
      ensures Lookup(Abs().view, it.key) == if oldIt == null then None else Some(EntryOf(oldIt))
      ensures it in slab.chunks && Offered(it) && |it.value| >= 2 && Abs().lastCas == casId
      ensures it !in table.keyOf && table.keyOf.Keys <= ready
      ensures oldIt == null ==> it.key !in ViewOf(table.keyOf)
      ensures oldIt != null ==>
                && Held(oldIt, it.key) && oldIt in slab.chunks && oldIt in ready && oldIt in table.keyOf
                && table.keyOf[oldIt] == it.key == oldIt.key && it != oldIt && |oldIt.value| >= 2
                && Handed(oldIt) && oldIt.refcount > 1 && oldIt.handles > 0
    {
      hide LruList.Valid, ViewOf;
      KeysInChunks();
      if oldIt != null { HeldFacts(oldIt, it); }
    }

    /** The append and prepend branches: refused unless the ids agree. */
    method StoreJoin(
        oldIt: BaseItem, it: BaseItem, cmd: Cmd, w: World)
      returns (outcome: Outcome, newIt: BaseItem?, ghost room: bool, ghost gone: set<BaseItem>, ghost lost: set<Key>)
      requires Valid() && Injective(table.keyOf) && LookedUp(oldIt, it) && clock <= w.now
      requires Locked(w.busy, table.bucketOf(it.key)) && Joins(cmd)
      modifies this`ready, this`casId, this`clock, table, queues, slab
      modifies slab.chunks`refcount, slab.chunks`handles, slab.chunks`leaks, slab.chunks`exptime, slab.chunks`clsid
      modifies slab.chunks`flag, slab.chunks`hNext, slab.chunks`next, slab.chunks`prev
      modifies slab.chunks`key, slab.chunks`value, slab.chunks`cas, slab.chunks`realtime
      ensures slab.Growth() && Outlay(old(JoinBudget(oldIt, it, cmd, w)), true, room, newIt, gone, lost)
      ensures OneAtMost(newIt) && table.keyOf.Keys <= old(table.keyOf).Keys + Only(newIt)
      ensures clock == old(clock) || clock == w.now
      ensures Valid() && old(slab.chunks) <= slab.chunks && fresh(slab.chunks - old(slab.chunks))
      ensures Injective(table.keyOf)
      ensures Answered(old(Abs()), Abs(), cmd, old(OfferOf(it)), room, lost, outcome)
      ensures ready == old(ready) - gone + Only(newIt)
      ensures Placing(oldIt, it, newIt, outcome == Stored, w.now)
      ensures Leaves(oldIt, it, newIt, gone)
      ensures Spared(newIt, gone + Only(oldIt) + {it})
    {
      hide LruList.HandedOut, Grew, LruList.JoinBudget, Outlay, Made, LruList.CanMake, LruList.Valid, LruList.InfoOf;
      hide LruList.LookedUp;
      hide ViewOf, ScalarsOf, Offered, Held, Join, Abs, Bind, Apply, Answered;
      outcome, newIt, room, gone, lost := NotStored, null, true, {}, {};
      ghost var s, o := Abs(), OfferOf(it);
      EntryHere(oldIt, it);
      GrewNot(slab.Mem(), slab.memLimit);
      ghost var b := JoinBudget(oldIt, it, cmd, w);
      NoOutlay(b, true);
      if it.cas != oldIt.cas {
        outcome := Exists;
        Refused(s, cmd, o, room, lost, Exists);
        MineStill(it);
      } else {
        newIt, gone, lost := StoreJoined(oldIt, it, cmd, w);
        room := newIt != null;
        if newIt == null {
          Refused(s, cmd, o, room, lost, NotStored);
        } else {
          Placed(s, cmd, o, room, lost);
          outcome := Stored;
        }
        MadeOutlay(b, newIt, gone, lost);
      }
    }

    /** The same for a store that builds nothing. */
    twostate lemma LeavesAlone(new oldIt: BaseItem?, new it: BaseItem)
      requires it in old(slab.chunks) && StillMine(it)
      requires oldIt != null ==>
                 && oldIt in old(slab.chunks) && oldIt in ready && Handed(oldIt) && oldIt.refcount > 0
                 && oldIt.handles == old(oldIt.handles) && oldIt.leaks == old(oldIt.leaks) && oldIt.key == it.key
      ensures Leaves(oldIt, it, null, {})
    {
    }

    /** A store that has refused. */
    twostate lemma NotPlaced(new oldIt: BaseItem?, new it: BaseItem)
      requires it !in table.keyOf
      requires oldIt != null ==> oldIt in old(slab.chunks) && oldIt.exptime == old(oldIt.exptime)
      ensures forall now: nat :: Placing(oldIt, it, null, false, now)
    {
    }

    /** do_item_update of an item the caller holds, which the map does not notice. */
    method UpdateHeld(oldIt: BaseItem, now: nat)
      requires Valid() && oldIt in ready && clock <= now && Injective(table.keyOf)
      modifies this`clock, queues, oldIt`realtime, slab.chunks`next, slab.chunks`prev
      ensures clock == old(clock) || clock == now
      ensures Valid() && Abs() == old(Abs())
      ensures forall x {:trigger x in slab.chunks} :: x in slab.chunks && x != oldIt ==> Untouched(x)
    {
      hide LruList.Valid, ViewOf;
      ghost var k := DoItemUpdate(oldIt, now);
      SameView(table.keyOf);
    }

    /** The CAS branch: replace exactly when the ids agree. */
    method StoreCas(oldIt: BaseItem?, it: BaseItem, now: nat) returns (outcome: Outcome)
      requires Valid() && Injective(table.keyOf) && LookedUp(oldIt, it) && clock <= now
      modifies this`ready, this`casId, this`clock, table, queues, slab`memBase, slab`free, slab`out, it`flag
      modifies it`realtime, it`cas, it`refcount
      modifies Only(oldIt)`refcount, Only(oldIt)`handles, Only(oldIt)`leaks, Only(oldIt)`exptime, Only(oldIt)`clsid
      modifies Only(oldIt)`flag, slab.chunks`hNext, slab.chunks`next, slab.chunks`prev
      ensures clock == old(clock) || clock == now
      ensures Valid() && slab.chunks == old(slab.chunks) && ready == old(ready) && Injective(table.keyOf)
      ensures OneAtMost(null) && table.keyOf.Keys <= old(table.keyOf).Keys + {it}
      ensures Answered(old(Abs()), Abs(), Cas, old(OfferOf(it)), true, {}, outcome)
      ensures StillMine(it)
      ensures oldIt != null ==>
                && Handed(oldIt) && oldIt.refcount > 0 && oldIt.handles == old(oldIt.handles)
                && oldIt.leaks == old(oldIt.leaks)
      ensures Placing(oldIt, it, null, outcome == Stored, now)
      ensures forall x {:trigger x in slab.chunks} :: x in slab.chunks && x != it && x != oldIt ==> Untouched(x)
    {
      hide LruList.Valid, LruList.InfoOf, LruList.LookedUp, ViewOf, ScalarsOf, Offered, Held, Abs, Bind, Apply;
      hide Answered;
      ghost var s, o := Abs(), OfferOf(it);
      EntryHere(oldIt, it);
      if oldIt == null {
        Refused(s, Cas, o, true, {}, NotFound);
        MineStill(it);
        return NotFound;
      }
      if it.cas == oldIt.cas {
        var r := DoItemReplace(oldIt, it, now);
        Placed(s, Cas, o, true, {});
        return Stored;
      } else {
        Refused(s, Cas, o, true, {}, Exists);
        MineStill(it);
        return Exists;
      }
    }

    /** The branches of do_store_item that allocate nothing. */
    method StoreWhole(oldIt: BaseItem?, it: BaseItem, cmd: Cmd, now: nat) returns (outcome: Outcome)
      requires Valid() && Injective(table.keyOf) && LookedUp(oldIt, it) && clock <= now
      requires !(oldIt != null && Joins(cmd))
      modifies this`ready, this`casId, this`clock, table, queues, slab`memBase, slab`free, slab`out, it`flag
      modifies it`realtime, it`cas, it`refcount
      modifies Only(oldIt)`refcount, Only(oldIt)`handles, Only(oldIt)`leaks, Only(oldIt)`exptime, Only(oldIt)`clsid
      modifies Only(oldIt)`realtime
      modifies Only(oldIt)`flag, slab.chunks`hNext, slab.chunks`next, slab.chunks`prev
      ensures clock == old(clock) || clock == now
      ensures Valid() && slab.chunks == old(slab.chunks) && ready == old(ready) && Injective(table.keyOf)
      ensures OneAtMost(null) && table.keyOf.Keys <= old(table.keyOf).Keys + {it}
      ensures Answered(old(Abs()), Abs(), cmd, old(OfferOf(it)), true, {}, outcome)
      ensures Placing(oldIt, it, null, outcome == Stored, now)
      ensures Leaves(oldIt, it, null, {}) && Spared(null, {} + Only(oldIt) + {it})
    {
      hide LruList.HandedOut, LruList.Leaves, LruList.Valid, LruList.InfoOf, LruList.LookedUp, StillMine, ViewOf;
      hide ScalarsOf, Offered, Held, Abs, Bind, Apply, Decide, Answered, LruList.Placing;
      outcome := NotStored;
      ghost var s, o := Abs(), OfferOf(it);
      EntryHere(oldIt, it);
      KeysInChunks();
      if oldIt != null && cmd == Add {
        UpdateHeld(oldIt, now);
        RefusedAtOnce(s, cmd, o);
        MineStill(it);
        NotPlaced(oldIt, it);
      } else if oldIt == null && (cmd == Replace || cmd == Append || cmd == Prepend) {
        RefusedAtOnce(s, cmd, o);
        MineStill(it);
        NotPlaced(oldIt, it);
      } else if cmd == Cas {
        outcome := StoreCas(oldIt, it, now);
      } else {
        PutOffered(oldIt, it, now);
        PlacedAtOnce(s, cmd, o);
        outcome := Stored;
      }
      LeavesAlone(oldIt, it);
    }

    /** How many references the clients hold of each item. */
    ghost function Handles(): (h: map<BaseItem, nat>)
      reads this, ready
    {
      map x | x in ready :: x.handles
    }

    twostate lemma StayAside(new oldIt: BaseItem?, new it: BaseItem, new newIt: BaseItem?, new gone: set<BaseItem>)
      requires old(slab.chunks) <= slab.chunks && Leaves(oldIt, it, newIt, gone)
      requires oldIt != null ==> oldIt in old(table.keyOf)
      requires table.keyOf.Keys <= old(table.keyOf).Keys + {it} + Only(newIt)
      requires Spared(newIt, gone + Only(oldIt) + {it})
      ensures Stay(old(Waiting()), Waiting(), {it})
    {
      hide LruList.InfoOf, Stay;
      StayBy(gone + Only(oldIt) + {it} + Only(newIt), {it});
    }

    twostate lemma BuiltOne(new oldIt: BaseItem?, new it: BaseItem, new newIt: BaseItem?, new gone: set<BaseItem>)
      requires old(ready) <= old(slab.chunks) <= slab.chunks
      requires ready == old(ready) - gone + Only(newIt) && Leaves(oldIt, it, newIt, gone)
      requires Spared(newIt, gone + Only(oldIt) + {it})
      ensures Built(old(Handles()), Handles(), newIt, gone)
    {
    }

    /** Who can have the key once a store has decided, and since when. */
    ghost predicate Owners(oldIt: BaseItem?, it: BaseItem, newIt: BaseItem?, stored: bool, now: nat)
      reads table, it, Only(oldIt), Only(newIt)
    {
      && Heirs(it.key, Only(oldIt) + {it} + Only(newIt))
      && (oldIt != null && oldIt in table.keyOf ==> !stored)
      && (it in table.keyOf ==> stored && it.realtime == now)
      && (newIt != null && newIt in table.keyOf ==> stored && newIt.realtime == now && newIt.leaks == 0)
    }

    twostate lemma OwnersAre(new oldIt: BaseItem?, new it: BaseItem, new newIt: BaseItem?, new gone: set<BaseItem>,
        new stored: bool, new now: nat)
      requires Leaves(oldIt, it, newIt, gone) && Placing(oldIt, it, newIt, stored, now)
      requires Heirs(it.key, Only(oldIt) + {it} + Only(newIt)) && (oldIt != null ==> oldIt in old(table.keyOf))
      ensures Owners(oldIt, it, newIt, stored, now)
      ensures oldIt != null && !stored ==> oldIt.exptime == old(oldIt.exptime)
    {
      hide LruList.Heirs;
    }

    twostate lemma OwnersStill(
        new oldIt: BaseItem?, new it: BaseItem, new newIt: BaseItem?, new stored: bool, new now: nat)
      requires table.keyOf == old(table.keyOf)
      requires it in old(slab.chunks) && Only(oldIt) + Only(newIt) <= old(slab.chunks)
      requires it.key == old(it.key) && it.realtime == old(it.realtime)
      requires newIt != null ==> newIt.realtime == old(newIt.realtime) && newIt.leaks == old(newIt.leaks)
      requires old(Owners(oldIt, it, newIt, stored, now))
      ensures Owners(oldIt, it, newIt, stored, now)
    {
    }

    /** All that a store leaves between its decision and its releases, seen by others and on its own key. */
    twostate lemma Aftermath(new oldIt: BaseItem?, new it: BaseItem, new newIt: BaseItem?, new gone: set<BaseItem>)
      requires Injective(table.keyOf) && old(Injective(table.keyOf)) && table.keyOf.Keys <= ready <= slab.chunks
      requires old(table.keyOf).Keys <= old(ready) <= old(slab.chunks) <= slab.chunks
      requires forall x {:trigger x in table.keyOf} :: x in table.keyOf ==> table.keyOf[x] == x.key
      requires forall x {:trigger x in old(table.keyOf)} :: x in old(table.keyOf) ==> old(table.keyOf)[x] == old(x.key)
      requires Leaves(oldIt, it, newIt, gone) && Spared(newIt, gone + Only(oldIt) + {it})
      requires table.keyOf.Keys <= old(table.keyOf).Keys + {it} + Only(newIt)
      requires ready == old(ready) - gone + Only(newIt)
      requires if oldIt == null then old(it.key !in ViewOf(table.keyOf))
               else oldIt in old(table.keyOf) && old(table.keyOf)[oldIt] == old(it.key)
      ensures Built(old(Handles()), Handles(), newIt, gone) && Stay(old(Waiting()), Waiting(), {it})
      ensures Stay(old(Infos()), Infos(), gone + Only(oldIt) + Only(newIt) + {it})
      ensures SameShown(old(ShownOf(table.keyOf)), ShownOf(table.keyOf), it.key)
      ensures Heirs(it.key, Only(oldIt) + {it} + Only(newIt))
    {
      hide LruList.Infos, SameShown, ShownOf, LruList.Waiting, Stay, LruList.Leaves, LruList.InfoOf, Built, Handles;
      hide LruList.Spared, LruList.Heirs, ViewOf;
      BuiltOne(oldIt, it, newIt, gone);
      StayAside(oldIt, it, newIt, gone);
      InfosSpared(oldIt, it, newIt, gone);
      ShownSpared(oldIt, it, newIt, gone);
      HeirsAre(oldIt, it, newIt, gone);
    }

    /**
     * do_store_item between its lookup and the release of the items it holds: one branch for each line of the reply
     * table. (As written a CAS of an absent key goes on to dereference null: see DecideAsWritten.)
     */
    method ResolveStore(
        oldIt: BaseItem?, it: BaseItem, cmd: Cmd, w: World)
      returns (outcome: Outcome, newIt: BaseItem?, ghost room: bool, ghost gone: set<BaseItem>, ghost lost: set<Key>)
      requires Valid() && Injective(table.keyOf) && LookedUp(oldIt, it) && clock <= w.now
      requires Locked(w.busy, table.bucketOf(it.key))
      modifies this`ready, this`casId, this`clock, table, queues, slab
      modifies slab.chunks`refcount, slab.chunks`handles, slab.chunks`leaks, slab.chunks`exptime, slab.chunks`clsid
      modifies slab.chunks`flag, slab.chunks`hNext, slab.chunks`next, slab.chunks`prev
      modifies slab.chunks`key, slab.chunks`value, slab.chunks`cas, slab.chunks`realtime
      ensures slab.Growth()
      ensures Outlay(old(JoinBudget(oldIt, it, cmd, w)), Joins(cmd) && oldIt != null, room, newIt, gone, lost)
      ensures OneAtMost(newIt) && Stay(old(Waiting()), Waiting(), {it})
      ensures clock == old(clock) || clock == w.now
      ensures Valid() && old(slab.chunks) <= slab.chunks && fresh(slab.chunks - old(slab.chunks))
      ensures Injective(table.keyOf)
      ensures Answered(old(Abs()), Abs(), cmd, old(OfferOf(it)), room, lost, outcome)
      ensures !Joins(cmd) ==> gone == {} && lost == {} && newIt == null
      ensures Owners(oldIt, it, newIt, outcome == Stored, w.now)
      ensures oldIt != null && outcome != Stored ==> oldIt.exptime == old(oldIt.exptime)
      ensures Leaves(oldIt, it, newIt, gone)
      ensures SameShown(old(ShownOf(table.keyOf)), ShownOf(table.keyOf), it.key)
      ensures Built(old(Handles()), Handles(), newIt, gone)
      ensures Stay(old(Infos()), Infos(), gone + Only(oldIt) + Only(newIt) + {it})
    {
      hide LruList.Infos, SameShown, ShownOf;
      hide LruList.Waiting, LruList.HandedOut, Stay, Slab.Growth, LruList.JoinBudget, Outlay, LruList.CanMake;
      hide LruList.Leaves, LruList.Valid;
      hide LruList.InfoOf, LruList.LookedUp, StillMine, ViewOf, ScalarsOf, Offered, Held, Join, Abs, Answered, Built;
      hide Handles, LruList.Spared, LruList.Heirs, LruList.Placing, LruList.Owners;
      EntryHere(oldIt, it);
      KeysInChunks();
      KeysAgree();
      if oldIt != null && Joins(cmd) {
        outcome, newIt, room, gone, lost := StoreJoin(oldIt, it, cmd, w);
      } else {
        newIt, room, gone, lost := null, true, {}, {};
        NoOutlay(JoinBudget(oldIt, it, cmd, w), false);
        outcome := StoreWhole(oldIt, it, cmd, w.now);
        slab.MemStays();
      }
      KeysAgree();
      KeysInChunks();
      Aftermath(oldIt, it, newIt, gone);
      OwnersAre(oldIt, it, newIt, gone, outcome == Stored, w.now);
    }

    /** Clients hold one reference to each of these items and none to any other. */
    ghost predicate HeldAre(held: set<BaseItem>)
      reads this, ready
    {
      OnlyHeld(Handles(), held)
    }

    twostate lemma HoldsOne(it: BaseItem, new held: set<BaseItem>)
      requires ready <= old(ready) + {it} && it !in old(ready) && it.handles == 1
      requires forall x {:trigger x in old(ready)} :: x in old(ready) ==> x.handles == old(x.handles)
      ensures OnlyHeld(old(Handles()), held) ==> OnlyHeld(Handles(), held + {it})
    {
      if OnlyHeld(old(Handles()), held) {
        forall x | x in ready ensures x.handles == if x in held + {it} then 1 else 0 {
          if x != it { assert x in old(Handles()); }
        }
      }
    }

    twostate lemma HandlesKept()
      requires ready <= old(ready)
      requires forall x {:trigger x in ready} :: x in ready ==> x.handles == old(x.handles)
      ensures Borrowed(old(Handles()), Handles(), null)
    {
    }

    twostate lemma AfterGet(it: BaseItem, new oldIt: BaseItem?)
      requires Valid() && Injective(table.keyOf) && Untouched(it)
      requires old(Offered(it)) && |it.value| >= 2 && it !in table.keyOf
      requires LinesEnd(Abs().view)
      requires oldIt == null ==> it.key !in Abs().view
      requires oldIt != null ==> Owner(oldIt, it.key) && oldIt in ready && oldIt.handles > 0
      ensures LookedUp(oldIt, it)
    {
      hide LruList.Valid, LruList.InfoOf, ViewOf, ScalarsOf, Offered;
      StillOffered(it);
      if oldIt != null {
        ReadyHere(oldIt);
        assert Abs().view[it.key] == EntryOf(oldIt);
      }
    }

    twostate lemma TakenOne(new key: Key, new oldIt: BaseItem?)
      requires Valid() && old(Injective(table.keyOf)) && ready <= slab.chunks && slab.chunks == old(slab.chunks)
      requires oldIt == null ==>
                ready <= old(ready) && forall x {:trigger x in ready} :: x in ready ==> x.handles == old(x.handles)
      requires oldIt != null ==>
                && ready == old(ready) && oldIt in ready && old(Owner(oldIt, key))
                && oldIt.handles == old(oldIt.handles) + 1
      requires forall x {:trigger x in slab.chunks} :: x in slab.chunks && !old(Owner(x, key)) ==> Untouched(x)
      ensures Borrowed(old(Handles()), Handles(), oldIt)
    {
      hide LruList.Valid;
    }

    /** The lookup that opens a store. */
    method GetForStore(it: BaseItem, now: nat) returns (oldIt: BaseItem?)
      requires Valid() && Offered(it) && Injective(table.keyOf) && |it.value| >= 2 && LinesEnd(Abs().view)
      modifies this`ready, table, queues, slab`memBase, slab`free, slab`out
      modifies slab.chunks`refcount, slab.chunks`handles, slab.chunks`leaks, slab.chunks`exptime, slab.chunks`clsid
      modifies slab.chunks`flag, slab.chunks`hNext, slab.chunks`next, slab.chunks`prev
      ensures Valid() && slab.chunks == old(slab.chunks) && Injective(table.keyOf)
      ensures Abs() == Live(old(Abs()), it.key, now) && OfferOf(it) == old(OfferOf(it))
      ensures LookedUp(oldIt, it) && Untouched(it) && table.keyOf.Keys <= old(table.keyOf).Keys
      ensures slab.NoPoorer()
      ensures OneAtMost(null) && Stay(old(Waiting()), Waiting(), {})
      ensures OnlySeen(it.key, oldIt != null)
      ensures Borrowed(old(Handles()), Handles(), oldIt)
      ensures forall x {:trigger x in slab.chunks} :: x in slab.chunks && !old(Owner(x, it.key)) ==> Untouched(x)
      ensures Stay(old(Infos()), Infos(), old(OwnersOf(it.key)))
      ensures oldIt != null ==> oldIt in old(OwnersOf(it.key))
      ensures oldIt != null ==> old(Owner(oldIt, it.key)) && table.keyOf == old(table.keyOf)
    {
      hide LruList.Waiting, LruList.HandedOut, LruList.OneAtMost, Stay, LruList.Valid, LruList.InfoOf, LruList.LookedUp;
      hide LruList.OnlySeen, ViewOf, ScalarsOf, Offered, Abs, Live, LinesEnd, Borrowed;
      KeysInChunks();
      KeysAgree();
      OfferedFacts(it);
      LiveLines(Abs(), it.key, now);
      oldIt := DoItemGet(it.key, now);
      KeysAgree();
      KeysInChunks();
      StillThere(it);
      AfterGet(it, oldIt);
      TakenOne(it.key, oldIt);
      InfosKept(old(OwnersOf(it.key)));
    }

    /** The size of the item that joining this value to the present one of its key would take; 0 if there is none. */
    ghost function JoinNeed(key: Key, value: Blob, cmd: Cmd): nat
      requires Injective(table.keyOf)
      reads this, table, table.keyOf.Keys
    {
      if key in Abs().view then ItemTotal(key, Join(cmd, Abs().view[key].value, value)) else 0
    }

    /** A lookup leaves the need as it is, and room before it is room after it. */
    twostate lemma NeedStays(it: BaseItem, new oldIt: BaseItem, new cmd: Cmd, new w: World)
      requires old(Injective(table.keyOf)) && Injective(table.keyOf) && slab.NoPoorer()
      requires Abs() == Live(old(Abs()), it.key, w.now) && Lookup(Abs().view, it.key) == Some(EntryOf(oldIt))
      requires it.key == old(it.key) && it.value == old(it.value)
      ensures ItemTotal(it.key, Join(cmd, oldIt.value, it.value)) == old(JoinNeed(it.key, it.value, cmd))
      ensures old(CanMake(JoinNeed(it.key, it.value, cmd), w)) ==>
                CanMake(ItemTotal(it.key, Join(cmd, oldIt.value, it.value)), w)
    {
      hide LruList.Abs, Join, ItemTotal, LruList.CanMake;
      LiveEntry(old(Abs()), it.key, w.now);
      MakeKept(ItemTotal(it.key, Join(cmd, oldIt.value, it.value)), w);
    }

    /** What may be taken out after a lookup could have been taken out before it: the key's own bucket is locked. */
    twostate lemma ReachStays(new key: Key, new n: nat, new w: World)
      requires Locked(w.busy, table.bucketOf(key)) && table.keyOf == old(table.keyOf) && table.keyOf.Keys <= slab.chunks
      requires slab.chunks == old(slab.chunks)
      requires forall x {:trigger x in slab.chunks} :: x in slab.chunks && !old(Owner(x, key)) ==> Untouched(x)
      requires slab.NoPoorer()
      ensures Tighter(BudgetOf(n, w), old(BudgetOf(n, w)))
    {
      hide LruList.LeastFit, Locked, Slab.NoPoorer, LruList.CanMake;
      MakeKept(n, w);
      forall x | x in table.keyOf && InReach(x, n, w)
        ensures x in slab.chunks && x in old(table.keyOf) && Untouched(x) && old(InReach(x, n, w))
      {
      }
      forall x | x in TiredOnes(n, w) ensures x in old(TiredOnes(n, w)) {
        assert old(Tired(x, w.now));
      }
      forall x | x in SpareOnes(n, w) ensures x in old(SpareOnes(n, w)) {
        assert old(Spare(x, n, w));
      }
    }

    /** The outlay of a store, counted from before its lookup. */
    twostate lemma OutlayStays(it: BaseItem, new oldIt: BaseItem?, new cmd: Cmd, new w: World)
      requires old(Injective(table.keyOf)) && Injective(table.keyOf) && slab.NoPoorer()
      requires table.keyOf.Keys <= slab.chunks
      requires Locked(w.busy, table.bucketOf(it.key)) && it.key == old(it.key) && it.value == old(it.value)
      requires slab.chunks == old(slab.chunks)
      requires forall x {:trigger x in slab.chunks} :: x in slab.chunks && !old(Owner(x, it.key)) ==> Untouched(x)
      requires oldIt != null ==>
                 && table.keyOf == old(table.keyOf)
                 && Abs() == Live(old(Abs()), it.key, w.now) && Lookup(Abs().view, it.key) == Some(EntryOf(oldIt))
      ensures oldIt != null ==>
                Tighter(JoinBudget(oldIt, it, cmd, w), old(BudgetOf(JoinNeed(it.key, it.value, cmd), w)))
    {
      hide LruList.Abs, LruList.InfoOf, Join, ItemTotal, Slab.NoPoorer, Locked, LruList.JoinNeed, LruList.BudgetOf;
      if oldIt != null {
        ReachStays(it.key, ItemTotal(it.key, Join(cmd, oldIt.value, it.value)), w);
        NeedStays(it, oldIt, cmd, w);
      }
    }

    twostate lemma ReturnedBoth(new oldIt: BaseItem?, new newIt: BaseItem?)
      requires ready <= old(ready) <= slab.chunks == old(slab.chunks)
      requires oldIt != null && oldIt in ready ==> oldIt.handles == old(oldIt.handles) - 1
      requires newIt != null && newIt in ready ==> newIt.handles == 0 && old(newIt.handles) == 1
      requires newIt != null ==> newIt != oldIt
      requires forall x {:trigger x in slab.chunks} :: x in slab.chunks && x != oldIt && x != newIt ==> Untouched(x)
      ensures Returned(old(Handles()), Handles(), oldIt, newIt)
    {
    }

    twostate lemma WereAgreed()
      requires old(Valid())
      ensures forall x {:trigger x in old(table.keyOf)} :: x in old(table.keyOf) ==> old(table.keyOf)[x] == old(x.key)
    {
      hide Slab.Valid, LruQueues.Valid, ItemsOk, Cross;
    }

    lemma ShownHere(x: BaseItem)
      requires Injective(table.keyOf) && x in table.keyOf
      ensures table.keyOf[x] in ShownOf(table.keyOf) && ShownOf(table.keyOf)[table.keyOf[x]] == LooksOf(x)
    {
    }

    lemma ReadyKey(x: BaseItem)
      requires Valid() && x in table.keyOf
      ensures x in ready && x.refcount == 1 + x.handles + x.leaks
    {
      hide LruList.Valid;
      KeysInChunks();
      ReadyHere(x);
    }

    twostate lemma ChainsWere()
      requires old(Valid())
      ensures old(Injective(table.keyOf)) && old(table.keyOf).Keys <= old(ready)
    {
      hide Slab.Valid, LruQueues.Valid, ItemsOk;
    }

    twostate lemma WasShown(x: BaseItem)
      requires old(Valid()) && x in old(table.keyOf)
      ensures old(Injective(table.keyOf)) && old(table.keyOf)[x] in old(ShownOf(table.keyOf))
      ensures old(ShownOf(table.keyOf))[old(table.keyOf)[x]] == old(LooksOf(x))
      ensures old(x.refcount) == 1 + old(x.handles) + old(x.leaks)
    {
      hide Slab.Valid, LruQueues.Valid, HashTable.Valid, Cross;
      ChainsWere();
      assert x in old(Now().members) && x in old(Now().ready);
    }

    /** What the release of an offered item looks like. */
    twostate lemma LessShown(it: BaseItem)
      requires old(Valid()) && Valid() && Injective(table.keyOf) && table.keyOf == old(table.keyOf)
      requires slab.chunks == old(slab.chunks) && it in slab.chunks
      requires it.leaks == old(it.leaks) && it.exptime == old(it.exptime) && it.realtime == old(it.realtime)
      requires it.key == old(it.key) && (it in ready ==> it.handles + 1 == old(it.handles))
      requires forall x {:trigger x in slab.chunks} :: x in slab.chunks && x != it ==> Untouched(x)
      ensures OwnLess(old(ShownOf(table.keyOf)), ShownOf(table.keyOf), it.key, it in table.keyOf)
    {
      hide LruList.Valid, ShownOf;
      KeysAgree();
      KeysInChunks();
      if it in table.keyOf {
        ReadyKey(it);
        WasShown(it);
        ShownHere(it);
      } else {
        WereAgreed();
        ShownBy([], {});
      }
    }

    /** The references to the key's own item after a STORED: its link, and the client's if it is the one offered. */
    lemma OwnCount(it: BaseItem, newIt: BaseItem?)
      requires Valid() && Injective(table.keyOf) && Heirs(it.key, {it} + Only(newIt))
      requires newIt != null && newIt in table.keyOf ==> newIt.refcount == 1
      requires it in table.keyOf ==> it.refcount == 2
      ensures it.key in ShownOf(table.keyOf) ==>
                ShownOf(table.keyOf)[it.key].refcount == if it in table.keyOf then 2 else 1
    {
      hide LruList.Valid, ShownOf;
      KeysAgree();
      if it.key in ShownOf(table.keyOf) {
        var x :| x in table.keyOf && table.keyOf[x] == it.key;
        ShownHere(x);
        assert it in table.keyOf ==> x == it;
      }
    }

    /** A client gives a reference back; the map does not notice. */
    method Release(it: BaseItem)
      requires Valid() && Handed(it) && it.refcount > 0 && Injective(table.keyOf)
      requires if it in ready then it.handles > 0 else it.flag.Dirty()
      modifies this`ready, slab`memBase, slab`free, slab`out, it`refcount, it`handles, it`leaks, it`exptime, it`clsid
      modifies it`flag, slab.chunks`next, slab.chunks`prev
      ensures Valid() && slab.chunks == old(slab.chunks) && Abs() == old(Abs())
      ensures OneAtMost(null) && it.leaks == old(it.leaks) && it.exptime == old(it.exptime)
      ensures old(ready) - {it} <= ready <= old(ready) && (it in ready ==> it.handles == old(it.handles) - 1)
      ensures it in old(ready) ==> (Handed(it) <==> old(it.refcount) != 1) && (it in ready <==> Handed(it))
      ensures it !in old(ready) ==> Handed(it) && it.flag == old(it.flag)
      ensures it !in ready ==> it !in table.keyOf
      ensures forall x {:trigger x in slab.chunks} :: x in slab.chunks && x != it ==> Untouched(x)
    {
      hide LruList.Valid, ViewOf;
      KeysInChunks();
      DoItemRemove(it);
      SameView(table.keyOf);
    }

    /** The release of the items looked up and built, seen by everybody else. */
    twostate lemma SeenReleased(new oldIt: BaseItem?, new newIt: BaseItem?, new key: Key)
      requires Injective(table.keyOf) && old(Injective(table.keyOf)) && table.keyOf == old(table.keyOf)
      requires table.keyOf.Keys <= slab.chunks == old(slab.chunks) && ready <= old(ready) <= slab.chunks
      requires forall x {:trigger x in old(table.keyOf)} :: x in old(table.keyOf) ==> old(table.keyOf)[x] == old(x.key)
      requires oldIt != null && oldIt in ready ==> oldIt.handles == old(oldIt.handles) - 1
      requires newIt != null && newIt in ready ==> newIt.handles == 0 && old(newIt.handles) == 1
      requires newIt != null ==> newIt != oldIt
      requires (oldIt != null ==> oldIt.key == key) && (newIt != null ==> newIt.key == key)
      requires forall x {:trigger x in table.keyOf} :: x in table.keyOf ==> table.keyOf[x] == x.key
      requires forall x {:trigger x in slab.chunks} :: x in slab.chunks && x != oldIt && x != newIt ==> Untouched(x)
      ensures SameShown(old(ShownOf(table.keyOf)), ShownOf(table.keyOf), key)
      ensures Stay(old(Waiting()), Waiting(), Only(oldIt) + Only(newIt))
      ensures Returned(old(Handles()), Handles(), oldIt, newIt)
      ensures Stay(old(Infos()), Infos(), Only(oldIt) + Only(newIt))
    {
      hide LruList.Infos, SameShown, ShownOf, LruList.Handles, LruList.Waiting, Stay, LruList.InfoOf, Returned;
      ReturnedBoth(oldIt, newIt);
      StayBy(Only(oldIt) + Only(newIt), Only(oldIt) + Only(newIt));
      InfosKept(Only(oldIt) + Only(newIt));
      ShownBy(key, Only(oldIt) + Only(newIt));
    }

    /** The end of do_store_item: the references to the item looked up and to the item built are given back. */
    method ReleaseBoth(oldIt: BaseItem?, newIt: BaseItem?, ghost key: Key)
      requires Valid() && Injective(table.keyOf)
      requires oldIt != null ==> Handed(oldIt) && oldIt in ready && oldIt.handles > 0 && oldIt.refcount > 0
      requires newIt != null ==>
                Handed(newIt) && newIt in ready && newIt.handles == 1 && newIt.refcount > 0 && newIt != oldIt
      requires (oldIt != null ==> oldIt.key == key) && (newIt != null ==> newIt.key == key)
      modifies this`ready, slab`memBase, slab`free, slab`out, slab.chunks`next, slab.chunks`prev
      modifies slab.chunks`refcount, slab.chunks`handles, slab.chunks`leaks, slab.chunks`exptime, slab.chunks`clsid
      modifies slab.chunks`flag
      ensures Valid() && slab.chunks == old(slab.chunks) && Abs() == old(Abs()) && ready <= old(ready)
      ensures Injective(table.keyOf) && SameShown(old(ShownOf(table.keyOf)), ShownOf(table.keyOf), key)
      ensures OneAtMost(null) && Stay(old(Waiting()), Waiting(), Only(oldIt) + Only(newIt))
      ensures table.keyOf == old(table.keyOf)
      ensures oldIt != null && oldIt in ready ==> oldIt.handles == old(oldIt.handles) - 1
      ensures oldIt != null ==> oldIt.leaks == old(oldIt.leaks) && oldIt.exptime == old(oldIt.exptime)
      ensures newIt != null ==> newIt.leaks == old(newIt.leaks) && (newIt in ready ==> newIt.handles == 0)
      ensures Returned(old(Handles()), Handles(), oldIt, newIt)
      ensures forall x {:trigger x in slab.chunks} :: x in slab.chunks && x != oldIt && x != newIt ==> Untouched(x)
      ensures Stay(old(Infos()), Infos(), Only(oldIt) + Only(newIt))
    {
      hide LruList.Infos, SameShown, ShownOf, LruList.Handles;
      hide LruList.Waiting, LruList.HandedOut, Stay, LruList.Valid, Abs, Returned;
      KeysInChunks();
      KeysAgree();
      if oldIt != null {
        Release(oldIt);
      }
      if newIt != null {
        if oldIt != null { StillThere(newIt); }
        Release(newIt);
      }
      KeysInChunks();
      SeenReleased(oldIt, newIt, key);
    }

    /** The store as it is before an operation on this item. */
    ghost function Snapped(it: BaseItem, cmd: Cmd, w: World): Snapshot
      requires Injective(table.keyOf)
      reads this, slab, table, table.keyOf.Keys, slab.chunks, ready, it
    {
      Snapshot(Abs(), ShownOf(table.keyOf), Handles(), Waiting(), Infos(), OwnersOf(it.key), HandedOut(), slab.Mem(),
               BudgetOf(JoinNeed(it.key, it.value, cmd), w))
    }

    /** The store between its decision and its releases, seen from a snapshot. */
    ghost predicate Decided(m: Snapshot, oldIt: BaseItem?, it: BaseItem, newIt: BaseItem?, gone: set<BaseItem>)
      requires Injective(table.keyOf)
      reads this, slab, table, table.keyOf.Keys, slab.chunks, ready, it
    {
      && Built(m.handles, Handles(), newIt, gone) && Stay(m.waiting, Waiting(), {it})
      && Stay(m.infos, Infos(), gone + Only(oldIt) + Only(newIt) + {it})
      && SameShown(m.shown, ShownOf(table.keyOf), it.key)
      && HandedOut() <= m.handed + Only(newIt) && Grew(m.mem, slab.Mem(), slab.memLimit)
    }

    /** What a store has done to others, as far as references to the old and the new item go. */
    ghost predicate Finished(
        m: Snapshot, oldIt: BaseItem?, it: BaseItem, newIt: BaseItem?, gone: set<BaseItem>, h2: map<BaseItem, nat>)
      requires Injective(table.keyOf)
      reads this, slab, table, table.keyOf.Keys, slab.chunks, ready, it
    {
      && Built(m.handles, h2, newIt, gone) && Returned(h2, Handles(), oldIt, newIt)
      && Stay(m.waiting, Waiting(), {it}) && Stay(m.infos, Infos(), gone + Only(oldIt) + Only(newIt) + {it})
      && SameShown(m.shown, ShownOf(table.keyOf), it.key)
      && HandedOut() <= m.handed + Only(newIt) && Grew(m.mem, slab.Mem(), slab.memLimit)
    }

    /** The releases at the end of a store. */
    method CloseStore(
        oldIt: BaseItem?, newIt: BaseItem?, it: BaseItem, ghost m: Snapshot, ghost gone: set<BaseItem>,
        ghost h2: map<BaseItem, nat>, ghost stored: bool, ghost now: nat)
      requires Valid() && Injective(table.keyOf) && Decided(m, oldIt, it, newIt, gone) && h2 == Handles()
      requires oldIt != null ==> Handed(oldIt) && oldIt in ready && oldIt.handles > 0 && oldIt.refcount > 0
      requires newIt != null ==>
                 Handed(newIt) && newIt in ready && newIt.handles == 1 && newIt.refcount > 0 && newIt != oldIt
      requires (oldIt != null ==> oldIt.key == it.key) && (newIt != null ==> newIt.key == it.key)
      requires it != oldIt && it != newIt && it in slab.chunks && Owners(oldIt, it, newIt, stored, now)
      requires (oldIt != null ==> oldIt !in m.waiting) && (newIt != null ==> newIt !in m.waiting)
      modifies this`ready, slab`memBase, slab`free, slab`out, slab.chunks`next, slab.chunks`prev
      modifies slab.chunks`refcount, slab.chunks`handles, slab.chunks`leaks, slab.chunks`exptime, slab.chunks`clsid
      modifies slab.chunks`flag
      ensures Valid() && slab.chunks == old(slab.chunks) && Injective(table.keyOf) && Abs() == old(Abs())
      ensures Owners(oldIt, it, newIt, stored, now)
      ensures oldIt != null ==> oldIt.leaks == old(oldIt.leaks) && oldIt.exptime == old(oldIt.exptime)
      ensures oldIt != null && oldIt in ready ==> oldIt.handles == old(oldIt.handles) - 1
      ensures newIt != null && newIt in ready ==> newIt.handles == 0
      ensures Untouched(it) && Finished(m, oldIt, it, newIt, gone, h2)
    {
      hide LruList.Infos, Slab.Mem, SameShown, ShownOf, Built, Returned, Handles, LruList.Abs;
      hide LruList.Waiting, LruList.HandedOut, Stay, Grew, LruList.Valid, LruList.InfoOf, LruList.Owners;
      ghost var m1, i1, s1, who := Waiting(), Infos(), ShownOf(table.keyOf), gone + Only(oldIt) + Only(newIt) + {it};
      ReleaseBoth(oldIt, newIt, it.key);
      StayOn(m.waiting, m1, Waiting(), {it}, Only(oldIt) + Only(newIt), {it});
      StayOn(m.infos, i1, Infos(), who, Only(oldIt) + Only(newIt), who);
      SameShownOn(m.shown, s1, ShownOf(table.keyOf), it.key);
      slab.MemStays();
      OwnersStill(oldIt, it, newIt, stored, now);
    }

    /** How the key's own item looks when the store has given its references back. */
    twostate lemma OwnEnd(new oldIt: BaseItem?, new it: BaseItem, new newIt: BaseItem?, new stored: bool, new now: nat)
      requires old(Valid()) && Valid() && Injective(table.keyOf) && old(Injective(table.keyOf))
      requires oldIt != null ==> oldIt in old(table.keyOf) && old(table.keyOf)[oldIt] == it.key
      requires Owners(oldIt, it, newIt, stored, now)
      requires newIt != null && newIt in ready ==> newIt.handles == 0
      requires oldIt != null && oldIt in ready ==> oldIt.handles + 1 == old(oldIt.handles)
      requires oldIt != null ==> oldIt.leaks == old(oldIt.leaks) && (!stored ==> oldIt.exptime == old(oldIt.exptime))
      ensures OwnLook(old(ShownOf(table.keyOf)), ShownOf(table.keyOf), it.key, 1, stored, now)
      ensures oldIt == null && !stored ==> it.key !in ShownOf(table.keyOf)
      ensures (stored ==> Heirs(it.key, {it} + Only(newIt))) && (it in table.keyOf ==> stored)
      ensures newIt != null && newIt in table.keyOf ==> newIt.refcount == 1
    {
      hide LruList.Valid, ShownOf;
      if newIt != null && newIt in table.keyOf { ReadyKey(newIt); }
      if it.key in ShownOf(table.keyOf) {
        var x :| x in table.keyOf && table.keyOf[x] == it.key;
        ShownHere(x);
        ReadyKey(x);
        if x == oldIt && !stored { WasShown(x); }
      }
    }

    /** do_store_item after its lookup: the branch, and the release of the item looked up and the item built. */
    method FinishStore(oldIt: BaseItem?, it: BaseItem, cmd: Cmd, w: World, ghost m: Snapshot)
      returns (outcome: Outcome, ghost newIt: BaseItem?, ghost room: bool, ghost gone: set<BaseItem>,
               ghost lost: set<Key>, ghost h2: map<BaseItem, nat>)
      requires Valid() && Injective(table.keyOf) && LookedUp(oldIt, it) && clock <= w.now
      requires Locked(w.busy, table.bucketOf(it.key)) && m == Snapped(it, cmd, w)
      modifies this`ready, this`casId, this`clock, table, queues, slab
      modifies slab.chunks`refcount, slab.chunks`handles, slab.chunks`leaks, slab.chunks`exptime, slab.chunks`clsid
      modifies slab.chunks`flag, slab.chunks`hNext, slab.chunks`next, slab.chunks`prev
      modifies slab.chunks`key, slab.chunks`value, slab.chunks`cas, slab.chunks`realtime
      ensures Valid() && old(slab.chunks) <= slab.chunks && fresh(slab.chunks - old(slab.chunks))
      ensures Injective(table.keyOf) && (clock == old(clock) || clock == w.now)
      ensures Outlay(
                old(JoinBudget(oldIt, it, cmd, w)), Joins(cmd) && oldIt != null, room, newIt, gone, lost)
      ensures Answered(old(Abs()), Abs(), cmd, old(OfferOf(it)), room, lost, outcome)
      ensures StillMine(it) && it !in gone && gone <= old(table.keyOf).Keys
      ensures newIt != null ==> oldIt != null && newIt != oldIt
      ensures Owners(oldIt, it, newIt, outcome == Stored, w.now)
      ensures newIt != null && newIt in ready ==> newIt.handles == 0
      ensures oldIt != null && oldIt in ready ==> oldIt.handles + 1 == old(oldIt.handles)
      ensures oldIt != null ==>
                oldIt.leaks == old(oldIt.leaks) && (outcome != Stored ==> oldIt.exptime == old(oldIt.exptime))
      ensures Finished(m, oldIt, it, newIt, gone, h2)
    {
      hide LruList.Infos, LruList.Untouched, SameShown, ShownOf, LruList.JoinBudget, Built, Handles;
      hide LruList.Waiting, LruList.HandedOut, Stay, LruList.Fresh, Grew, LruList.Valid, LruList.Finished;
      hide LruList.Owners;
      hide LruList.InfoOf, LruList.LookedUp, ViewOf, ScalarsOf, Offered, Abs, Answered;
      hide LruList.CanMake, ItemTotal, Join, Outlay;
      EntryHere(oldIt, it);
      NotWaiting(oldIt);
      KeysInChunks();
      var made: BaseItem?;
      outcome, made, room, gone, lost := ResolveStore(oldIt, it, cmd, w);
      newIt := made;
      h2 := Handles();
      FreshIsNew(newIt, gone);
      MineMeans(it);
      label resolved:
      CloseStore(oldIt, made, it, m, gone, h2, outcome == Stored, w.now);
      StillThere@resolved(it);
    }

    /** Between its lookup and its decision, a store has borrowed one item and done nothing else to anybody. */
    ghost predicate JustLooked(b: Snapshot, it: BaseItem, oldIt: BaseItem?, cmd: Cmd, w: World)
      requires Injective(table.keyOf)
      reads this, slab, table, table.keyOf.Keys, slab.chunks, ready, it, Only(oldIt)
    {
      && Abs() == Live(b.s, it.key, w.now)
      && (oldIt != null ==> Tighter(JoinBudget(oldIt, it, cmd, w), b.budget))
      && Borrowed(b.handles, Handles(), oldIt) && Stay(b.waiting, Waiting(), {}) && Stay(b.infos, Infos(), b.owners)
      && (oldIt != null ==> oldIt in b.owners) && HandedOut() <= b.handed && slab.Mem() == b.mem
      && SameShown(b.shown, ShownOf(table.keyOf), it.key)
      && (oldIt != null ==> LookedAt(b.shown, ShownOf(table.keyOf), it.key))
    }

    /** The lookup that opens a store, seen from before it. */
    method LookFirst(it: BaseItem, cmd: Cmd, w: World, ghost b: Snapshot) returns (oldIt: BaseItem?)
      requires Valid() && Offered(it) && Injective(table.keyOf) && |it.value| >= 2 && LinesEnd(Abs().view)
      requires b == Snapped(it, cmd, w) && Locked(w.busy, table.bucketOf(it.key))
      modifies this`ready, table, queues, slab`memBase, slab`free, slab`out
      modifies slab.chunks`refcount, slab.chunks`handles, slab.chunks`leaks, slab.chunks`exptime, slab.chunks`clsid
      modifies slab.chunks`flag, slab.chunks`hNext, slab.chunks`next, slab.chunks`prev
      ensures Valid() && slab.chunks == old(slab.chunks) && Injective(table.keyOf)
      ensures LookedUp(oldIt, it) && JustLooked(b, it, oldIt, cmd, w)
      ensures OfferOf(it) == old(OfferOf(it)) && Untouched(it) && table.keyOf.Keys <= old(table.keyOf).Keys
    {
      hide LruList.Waiting, LruList.HandedOut, Stay, LruList.Valid, LruList.InfoOf, LruList.LookedUp, LruList.Infos;
      hide ViewOf, ScalarsOf, Offered, Abs, Live, LruList.OwnersOf, LruList.Untouched, SameShown, LookedAt, ShownOf;
      hide LruList.CanMake, LruList.BudgetOf, LruList.JoinBudget, LruList.JoinNeed, Tighter, LruList.Owner, Locked;
      hide LruList.Held, Slab.NoPoorer, LinesEnd, ItemTotal, Join, Borrowed, Handles;
      KeysInChunks();
      OfferedFacts(it);
      oldIt := GetForStore(it, w.now);
      EntryHere(oldIt, it);
      StillThere(it);
      KeysInChunks();
      OutlayStays(it, oldIt, cmd, w);
    }

    /**
     * What a store leaves besides the map: memory has only grown, at most one chunk is newly handed out, nothing that
     * was waiting has noticed, the offered item is still its client's, no linked item of another key looks different,
     * and no chunk is seen differently but those taken out, the one bound to the key, the one built and the one
     * offered.
     */
    twostate predicate LeavesOthers(it: BaseItem, new newIt: BaseItem?, new gone: set<BaseItem>)
      reads this, slab, table, table.keyOf.Keys, slab.chunks, it
    {
      && slab.Growth() && OneAtMost(newIt) && StillMine(it) && it !in gone && gone <= old(table.keyOf).Keys
      && Stay(old(Waiting()), Waiting(), {it})
      && Injective(table.keyOf) && old(Injective(table.keyOf))
      && SameShown(old(ShownOf(table.keyOf)), ShownOf(table.keyOf), it.key)
      && Stay(old(Infos()), Infos(), gone + old(OwnersOf(it.key)) + Only(newIt) + {it})
    }

    /** What a store has done to others when it is over. */
    ghost predicate Settled(b: Snapshot, it: BaseItem, newIt: BaseItem?, gone: set<BaseItem>)
      requires Injective(table.keyOf)
      reads this, slab, table, table.keyOf.Keys, slab.chunks, ready, it
    {
      && SameShown(b.shown, ShownOf(table.keyOf), it.key) && GivenBack(b.handles, Handles(), gone)
      && Stay(b.waiting, Waiting(), {it})
      && Stay(b.infos, Infos(), gone + b.owners + Only(newIt) + {it})
      && HandedOut() <= b.handed + Only(newIt) && Grew(b.mem, slab.Mem(), slab.memLimit)
    }

    /** do_store_item after its lookup, seen from before it. */
    method StoreFound(oldIt: BaseItem?, it: BaseItem, cmd: Cmd, w: World, ghost b: Snapshot)
      returns (outcome: Outcome, ghost newIt: BaseItem?, ghost room: bool, ghost gone: set<BaseItem>,
               ghost lost: set<Key>)
      requires Valid() && Injective(table.keyOf) && LookedUp(oldIt, it) && clock <= w.now
      requires Locked(w.busy, table.bucketOf(it.key))
      requires JustLooked(b, it, oldIt, cmd, w)
      modifies this`ready, this`casId, this`clock, table, queues, slab
      modifies slab.chunks`refcount, slab.chunks`handles, slab.chunks`leaks, slab.chunks`exptime, slab.chunks`clsid
      modifies slab.chunks`flag, slab.chunks`hNext, slab.chunks`next, slab.chunks`prev
      modifies slab.chunks`key, slab.chunks`value, slab.chunks`cas, slab.chunks`realtime
      ensures Injective(table.keyOf)
      ensures Replied(b.s, Abs(), cmd, old(OfferOf(it)), w.now, room, lost, outcome)
      ensures Outlay(b.budget, Joins(cmd), room, newIt, gone, lost)
      ensures Settled(b, it, newIt, gone)
      ensures OwnLook(b.shown, ShownOf(table.keyOf), it.key, 0, outcome == Stored, w.now)
      ensures if outcome == Stored then Heirs(it.key, {it} + Only(newIt)) else it !in table.keyOf
      ensures newIt != null && newIt in table.keyOf ==> newIt.refcount == 1
      ensures StillMine(it) && it !in gone && gone <= old(table.keyOf).Keys && (clock == old(clock) || clock == w.now)
      ensures Valid() && old(slab.chunks) <= slab.chunks && fresh(slab.chunks - old(slab.chunks))
    {
      hide SameShown, ShownOf, OwnLook, LookedAt, LruList.Owners, LruList.Heirs;
      hide LruList.Waiting, LruList.HandedOut, Stay, LruList.Valid, LruList.InfoOf, LruList.LookedUp, LruList.Infos;
      hide ViewOf, ScalarsOf, Offered, Abs, Live, Answered, Replied, StillMine;
      hide LruList.CanMake, Outlay, Locked, Grew, LruList.Held, LruList.JoinBudget, Tighter;
      hide ItemTotal, Join, Borrowed, Built, Returned, GivenBack, Handles;
      ghost var s1, b1 := ShownOf(table.keyOf), JoinBudget(oldIt, it, cmd, w);
      ghost var m := Snapped(it, cmd, w);
      ghost var live, o, h1, m1, i1 := Abs(), OfferOf(it), Handles(), Waiting(), Infos();
      EntryHere(oldIt, it);
      ghost var h2: map<BaseItem, nat>;
      outcome, newIt, room, gone, lost, h2 := FinishStore(oldIt, it, cmd, w, m);
      MineMeans(it);
      StayOn(b.waiting, m1, Waiting(), {}, {it}, {it});
      StayOn(b.infos, i1, Infos(), b.owners, gone + Only(oldIt) + Only(newIt) + {it},
             gone + b.owners + Only(newIt) + {it});
      SameShownOn(b.shown, s1, ShownOf(table.keyOf), it.key);
      OwnEnd(oldIt, it, newIt, outcome == Stored, w.now);
      OwnLookOn(b.shown, s1, ShownOf(table.keyOf), it.key, outcome == Stored, w.now);
      OutlayMore(b1, b.budget, Joins(cmd) && oldIt != null, Joins(cmd), room, newIt, gone, lost);
      RepliedBy(b.s, live, Abs(), cmd, o, w.now, room, lost, outcome);
      AllGivenBack(b.handles, h1, h2, Handles(), oldIt, newIt, gone);
    }

    /**
     * do_store_item, under the lock of the item's own bucket. The reply and the new map are those of the reply table,
     * less the keys evicted to make room for a joined item; every other client keeps its references, and the store
     * gives back all of its own.
     */
    method DoStoreItem(it: BaseItem, cmd: Cmd, w: World)
      returns (outcome: Outcome, ghost newIt: BaseItem?, ghost room: bool, ghost gone: set<BaseItem>,
               ghost lost: set<Key>)
      requires Valid() && Offered(it) && clock <= w.now && Injective(table.keyOf) && |it.value| >= 2
      requires LinesEnd(Abs().view)
      requires Locked(w.busy, table.bucketOf(it.key))
      modifies this`ready, this`casId, this`clock, table, queues, slab
      modifies slab.chunks`refcount, slab.chunks`handles, slab.chunks`leaks, slab.chunks`exptime, slab.chunks`clsid
      modifies slab.chunks`flag, slab.chunks`hNext, slab.chunks`next, slab.chunks`prev
      modifies slab.chunks`key, slab.chunks`value, slab.chunks`cas, slab.chunks`realtime
      ensures Outlay(old(BudgetOf(JoinNeed(it.key, it.value, cmd), w)), Joins(cmd), room, newIt, gone, lost)
      ensures LeavesOthers(it, newIt, gone)
      ensures clock == old(clock) || clock == w.now
      ensures OwnLook(old(ShownOf(table.keyOf)), ShownOf(table.keyOf), it.key, 0, outcome == Stored, w.now)
      ensures if outcome == Stored then Heirs(it.key, {it} + Only(newIt)) else it !in table.keyOf
      ensures newIt != null && newIt in table.keyOf ==> newIt.refcount == 1
      ensures Valid() && old(slab.chunks) <= slab.chunks && fresh(slab.chunks - old(slab.chunks))
      ensures Injective(table.keyOf)
      ensures Replied(old(Abs()), Abs(), cmd, old(OfferOf(it)), w.now, room, lost, outcome)
      ensures GivenBack(old(Handles()), Handles(), gone)
    {
      hide LruList.Waiting, LruList.HandedOut, Stay, LruList.Valid, LruList.InfoOf, LruList.LookedUp, LruList.Infos;
      hide ViewOf, ScalarsOf, Offered, Abs, Replied, LruList.OwnersOf, LruList.Untouched, LruList.JustLooked;
      hide LruList.BudgetOf, LruList.JoinNeed, Outlay, Locked, Grew, SameShown, ShownOf, LinesEnd, GivenBack, Handles;
      hide OwnLook, LruList.Heirs;
      ghost var b := Snapped(it, cmd, w);
      var oldIt := LookFirst(it, cmd, w, b);
      StillThere(it);
      outcome, newIt, room, gone, lost := StoreFound(oldIt, it, cmd, w, b);
    }

  }
}
