/** What an allocation depends on, as values that can be recorded between events, and what an event may change of it. */
module Snapshots {
  import opened Layout
  import opened CacheSpec
  import opened Items
  import opened SlabClasses
  import opened Slabs
  import opened HashIndex
  import opened Pictures
  import opened ItemStore

  /** What never changes: the table of classes, the memory limit, and the bucket of each key. */
  datatype Setup = Setup(geo: seq<Geometry>, limit: nat, bucketOf: Key -> nat)

  /** The looks of the linked items, the lengths of the free lists, and the memory. */
  datatype Snap = Snap(shown: map<Key, Shown>, free: seq<nat>, mem: Memory)

  /**
   * What an allocation could cost and whether it was sure to succeed: the keys due for tail repair, those of which one
   * may be evicted, and whether the class has a chunk or can have a page.
   */
  datatype Facts = Facts(repairs: set<Key>, victims: set<Key>, canMake: bool)

  ghost function SetupOf(store: LruList): Setup { Setup(store.slab.geo, store.slab.memLimit, store.table.bucketOf) }

  /** The length of each list. */
  ghost function Lengths(lists: seq<seq<BaseItem>>): (n: seq<nat>)
    ensures |n| == |lists| && forall c {:trigger n[c]} :: 0 <= c < |lists| ==> n[c] == |lists[c]|
  {
    seq(|lists|, c requires 0 <= c < |lists| => |lists[c]|)
  }

  ghost function SnapOf(store: LruList): Snap
    requires Injective(store.table.keyOf)
    reads store.slab, store.table, store.table.keyOf.Keys
  {
    Snap(ShownOf(store.table.keyOf), Lengths(store.slab.free), store.slab.Mem())
  }

  lemma SnapShows(store: LruList)
    requires Injective(store.table.keyOf)
    ensures SnapOf(store).shown == ShownOf(store.table.keyOf)
  {
  }

  // ---------- the facts of an allocation ----------

  /** The class has a free chunk, or could have a page. */
  ghost predicate ServesAt(u: Setup, p: Snap, id: nat, w: World) {
    && 0 < id < |u.geo| && id < |p.free| && id < |p.mem.pages| && id < |p.mem.room|
    && (p.free[id] > 0 ||
        (!(u.limit != 0 && p.mem.malloced + PageBytes(u.geo[id]) > u.limit && p.mem.pages[id] > 0)
         && (w.reallocOk || p.mem.pages[id] < p.mem.room[id]) && w.mallocOk && PageBytes(u.geo[id]) < INT32))
  }

  ghost predicate CanMakeAt(u: Setup, p: Snap, n: nat, w: World) {
    exists id: nat :: ClassFor(u.geo, id, n) && ServesAt(u, p, id, w)
  }

  /** The item bound to the key is of the class in question, and the lock of its bucket is free at some try. */
  ghost predicate InReachAt(u: Setup, p: Snap, k: Key, n: nat, w: World) {
    k in p.shown && ClassFor(u.geo, p.shown[k].home, n) && !Locked(w.busy, u.bucketOf(k))
  }

  /** It is held, and nobody has linked or bumped it for three hours. */
  ghost predicate TiredAt(x: Shown, now: nat) { Add32(x.realtime, TAIL_REPAIR_TIME) < now && x.refcount != 1 }

  /** Nobody holds it, and it has expired or may be evicted for want of a chunk. */
  ghost predicate SpareAt(u: Setup, p: Snap, x: Shown, n: nat, w: World) {
    x.refcount == 1 && ((x.exptime != 0 && x.exptime < w.now) || (w.evictToFree && !CanMakeAt(u, p, n, w)))
  }

  ghost function FactsAt(u: Setup, p: Snap, n: nat, w: World): Facts {
    Facts(
      (set k | k in p.shown && InReachAt(u, p, k, n, w) && TiredAt(p.shown[k], w.now)),
      (set k | k in p.shown && InReachAt(u, p, k, n, w) && SpareAt(u, p, p.shown[k], n, w)),
      CanMakeAt(u, p, n, w))
  }

  /** The facts of a budget, by key. */
  ghost function FactsOf(b: Budget): Facts { Facts(KeysOf(b.tired, b.keyOf), KeysOf(b.spare, b.keyOf), b.canMake) }

  lemma ServesAgree(store: LruList, id: nat, w: World)
    requires store.Valid() && Injective(store.table.keyOf)
    ensures ServesAt(SetupOf(store), SnapOf(store), id, w) <==> store.slab.CanServe(id, w.reallocOk, w.mallocOk)
  {
    hide HashTable.Valid, Cross, ItemsOk, ShownOf, PageBytes;
    var s := store.slab;
    s.Sizes();
    if id < |s.geo| { ClassAt(s.geo, s.memBase, s.free, s.out, s.chunks, id); }
  }

  lemma MakeAgree(store: LruList, n: nat, w: World)
    requires store.Valid() && Injective(store.table.keyOf)
    ensures CanMakeAt(SetupOf(store), SnapOf(store), n, w) <==> store.CanMake(n, w)
  {
    hide LruList.Valid, ServesAt, Slab.CanServe, SnapOf, ClassFor;
    forall id: nat
      ensures ServesAt(SetupOf(store), SnapOf(store), id, w) <==> store.slab.CanServe(id, w.reallocOk, w.mallocOk)
    {
      ServesAgree(store, id, w);
    }
  }

  /** The facts read off a snapshot are those of the store it was taken of. */
  lemma FactsAgree(store: LruList, n: nat, w: World)
    requires store.Valid() && Injective(store.table.keyOf)
    ensures FactsAt(SetupOf(store), SnapOf(store), n, w) == FactsOf(store.BudgetOf(n, w))
  {
    hide LruList.Valid, CanMakeAt, LruList.CanMake, ShownOf, Locked, ClassFor;
    MakeAgree(store, n, w);
    var u, p, b := SetupOf(store), SnapOf(store), store.BudgetOf(n, w);
    var f, g := FactsAt(u, p, n, w), FactsOf(b);
    forall k ensures k in f.repairs <==> k in g.repairs {
      if k in f.repairs {
        var x :| x in store.table.keyOf && store.table.keyOf[x] == k;
        assert x in b.tired;
      }
      if k in g.repairs {
        var x :| x in b.tired && x in b.keyOf && b.keyOf[x] == k;
        assert p.shown[k] == LooksOf(x);
      }
    }
    forall k ensures k in f.victims <==> k in g.victims {
      if k in f.victims {
        var x :| x in store.table.keyOf && store.table.keyOf[x] == k;
        assert x in b.spare;
      }
      if k in g.victims {
        var x :| x in b.spare && x in b.keyOf && b.keyOf[x] == k;
        assert p.shown[k] == LooksOf(x);
      }
    }
  }

  // ---------- what an event may change ----------

  /** The linked items, seen from the map and from the allocation. */
  ghost predicate SnapOk(u: Setup, s: State, p: Snap) {
    && p.shown.Keys == s.view.Keys
    && (forall k {:trigger k in p.shown} :: k in p.shown ==> p.shown[k].exptime == s.view[k].exptime)
    && |p.free| == |p.mem.pages| == |p.mem.room| == |u.geo|
  }

  lemma SnapFits(store: LruList)
    requires store.Valid() && Injective(store.table.keyOf)
    ensures SnapOk(SetupOf(store), store.Abs(), SnapOf(store))
  {
    hide HashTable.Valid, Cross, ItemsOk, GoodTable, TableOk, MemoryOk;
    var p, v := SnapOf(store), store.Abs().view;
    forall k ensures k in p.shown <==> k in v {
      if k in p.shown { var x :| x in store.table.keyOf && store.table.keyOf[x] == k; }
      if k in v { var x :| x in store.table.keyOf && store.table.keyOf[x] == k; }
    }
    forall k | k in p.shown ensures p.shown[k].exptime == v[k].exptime {
      var x :| x in store.table.keyOf && store.table.keyOf[x] == k;
    }
  }

  /**
   * From one snapshot to the next, for an event on this key that allocates n bytes: no other key looks different or
   * comes in, memory only grows, and no free list loses a chunk but that of the class for n, which may lose one.
   */
  ghost predicate Ensues(u: Setup, p: Snap, q: Snap, key: Key, n: nat) {
    && SameShown(p.shown, q.shown, key) && Grew(p.mem, q.mem, u.limit) && |p.free| == |q.free|
    && forall c {:trigger q.free[c]} :: 0 <= c < |q.free| ==>
         p.free[c] <= q.free[c] + if ClassFor(u.geo, c, n) then 1 else 0
  }

  lemma {:induction false} DistinctSize(s: seq<BaseItem>)
    requires Distinct(s)
    ensures |(set x | x in s)| == |s|
  {
    if s != [] {
      var t := s[..|s| - 1];
      DistinctSize(t);
      assert s == t + [s[|s| - 1]];
      assert (set x | x in s) == (set x | x in t) + {s[|s| - 1]};
    }
  }

  /** A list without repetition that has lost nothing but, perhaps, m. */
  lemma ShortBy(f: seq<BaseItem>, g: seq<BaseItem>, m: set<BaseItem>)
    requires Distinct(f) && Distinct(g) && forall x :: x in f ==> x in g || x in m
    ensures |f| <= |g| + |m|
  {
    DistinctSize(f);
    DistinctSize(g);
    FewerThan((set x | x in f), (set x | x in g) + m);
  }

  /** Every chunk of a class is on its free list or handed out. */
  lemma FreeOrOut(slab: Slab, c: nat)
    requires slab.Valid() && c < |slab.free|
    ensures |slab.out| == |slab.free| && Distinct(slab.free[c])
    ensures forall x :: x in slab.free[c] ==> x in slab.chunks && x.home == c && x !in slab.out[c]
    ensures forall x {:trigger x in slab.chunks} ::
                x in slab.chunks && x.home == c ==> x in slab.free[c] || x in slab.out[c]
  {
    hide MemoryOk, GoodTable, FreeList, ClassOk;
    ClassAt(slab.geo, slab.memBase, slab.free, slab.out, slab.chunks, c);
  }

  twostate lemma WereFree(slab: Slab, new c: nat)
    requires old(slab.Valid()) && c < |old(slab.free)|
    ensures |old(slab.out)| == |old(slab.free)| && Distinct(old(slab.free)[c])
    ensures forall x :: x in old(slab.free)[c] ==> x in old(slab.chunks) && x.home == c && x !in old(slab.out)[c]
  {
    hide MemoryOk, GoodTable, FreeList, ClassOk;
    ClassAt(slab.geo, old(slab.memBase), old(slab.free), old(slab.out), old(slab.chunks), c);
  }

  twostate lemma ClassStays(store: LruList, new made: BaseItem?, new c: nat)
    requires old(store.slab.Valid()) && store.slab.Valid() && old(store.slab.chunks) <= store.slab.chunks
    requires store.OneAtMost(made) && c < |store.slab.free| == |old(store.slab.free)|
    ensures |old(store.slab.free)[c]| <= |store.slab.free[c]| + if made != null && made.home == c then 1 else 0
  {
    hide Slab.Valid, LruList.OneAtMost;
    var s := store.slab;
    FreeOrOut(s, c);
    WereFree(s, c);
    store.Took(made);
    forall x | x in old(s.free)[c] && x !in s.free[c] ensures x == made {
      assert x in s.chunks && x.home == c && x in s.out[c];
      assert x in store.HandedOut();
      assert x !in old(s.out)[c] && x !in old(store.HandedOut());
    }
    var m := if made != null && made.home == c then {made} else {};
    ShortBy(old(s.free)[c], s.free[c], m);
  }

  lemma AsManyLists(slab: Slab)
    requires slab.Valid()
    ensures |slab.free| == |slab.geo| == |slab.pages|
  {
    hide MemoryOk, GoodTable, FreeList, ClassOk;
  }

  twostate lemma WereLists(slab: Slab)
    requires old(slab.Valid())
    ensures |old(slab.free)| == |slab.geo|
  {
    hide MemoryOk, GoodTable, FreeList, ClassOk;
  }

  /** A chunk leaves a free list only to be handed out. */
  twostate lemma FreeStays(store: LruList, new made: BaseItem?)
    requires old(store.slab.Valid()) && store.slab.Valid() && old(store.slab.chunks) <= store.slab.chunks
    requires store.OneAtMost(made)
    ensures |store.slab.free| == |old(store.slab.free)|
    ensures forall c {:trigger store.slab.free[c]} :: 0 <= c < |store.slab.free| ==>
              |old(store.slab.free)[c]| <= |store.slab.free[c]| + if made != null && made.home == c then 1 else 0
  {
    hide Slab.Valid, LruList.OneAtMost;
    AsManyLists(store.slab);
    assert |old(store.slab.free)| == |store.slab.geo| by { WereLists(store.slab); }
    forall c | 0 <= c < |store.slab.free|
      ensures |old(store.slab.free)[c]| <= |store.slab.free[c]| + if made != null && made.home == c then 1 else 0
    {
      ClassStays(store, made, c);
    }
  }

  /** An event on one key: the snapshots before and after it. */
  twostate lemma EnsuesHere(store: LruList, new made: BaseItem?, new key: Key, new n: nat)
    requires old(store.Valid()) && store.Valid() && old(store.slab.chunks) <= store.slab.chunks
    requires old(Injective(store.table.keyOf)) && Injective(store.table.keyOf)
    requires store.OneAtMost(made) && store.slab.Growth()
    requires made != null ==> ClassFor(store.slab.geo, made.home, n)
    requires SameShown(old(ShownOf(store.table.keyOf)), ShownOf(store.table.keyOf), key)
    ensures Ensues(SetupOf(store), old(SnapOf(store)), SnapOf(store), key, n)
  {
    hide Slab.Valid, HashTable.Valid, Cross, ItemsOk, SameShown, ShownOf, LruList.OneAtMost, Grew;
    FreeStays(store, made);
    assert made != null ==> ClassFor(store.slab.geo, made.home, n);
  }
}
