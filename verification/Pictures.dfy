/** The store seen as values: what a change to one item must keep, and how lists, index and map follow it. */
module Pictures {
  import opened Layout
  import opened CacheSpec
  import opened Items
  import opened SlabClasses
  import opened Slabs
  import opened HashIndex
  import opened Lru

  /** What the map says about a linked item. */
  function EntryOf(x: BaseItem): Entry
    reads x
  {
    Entry(x.value, x.exptime, x.cas, x.flag.rest)
  }

  /** What a client offers to the store, as the map sees it. */
  function OfferOf(it: BaseItem): Offer
    reads it
  {
    Offer(it.key, it.value, it.exptime, it.cas, it.flag)
  }

  /** The map of the linked items. */
  ghost function ViewOf(keyOf: map<BaseItem, Key>): (v: View)
    requires Injective(keyOf)
    reads keyOf.Keys
    ensures forall x {:trigger x in keyOf} :: x in keyOf ==> keyOf[x] in v && v[keyOf[x]] == EntryOf(x)
    ensures forall k :: k in v ==> exists x :: x in keyOf && keyOf[x] == k
  {
    map x | x in keyOf :: keyOf[x] := EntryOf(x)
  }

  /** What an allocation looks at in a linked item: its class, and who holds it, until when and since when. */
  datatype Shown = Shown(home: nat, refcount: nat, exptime: nat, realtime: nat)

  ghost function LooksOf(x: BaseItem): Shown
    reads x
  {
    Shown(x.home, x.refcount, x.exptime, x.realtime)
  }

  /** The same of all linked items, by key. */
  ghost function ShownOf(keyOf: map<BaseItem, Key>): (v: map<Key, Shown>)
    requires Injective(keyOf)
    reads keyOf.Keys
    ensures forall x {:trigger x in keyOf} :: x in keyOf ==> keyOf[x] in v && v[keyOf[x]] == LooksOf(x)
    ensures forall k :: k in v ==> exists x :: x in keyOf && keyOf[x] == k
  {
    map x | x in keyOf :: keyOf[x] := LooksOf(x)
  }

  /** Nothing looks different, and nothing has come in, but perhaps at this key. */
  ghost predicate SameShown(m0: map<Key, Shown>, m1: map<Key, Shown>, key: Key) {
    forall k {:trigger k in m1} {:trigger k in m0} :: k in m1 && k != key ==> k in m0 && m1[k] == m0[k]
  }

  /** Nothing looks different, and nothing has come in. */
  ghost predicate AllSame(m0: map<Key, Shown>, m1: map<Key, Shown>) {
    forall k {:trigger k in m1} {:trigger k in m0} :: k in m1 ==> k in m0 && m1[k] == m0[k]
  }

  lemma AllSameOn(m0: map<Key, Shown>, m1: map<Key, Shown>, m2: map<Key, Shown>)
    requires AllSame(m0, m1) && AllSame(m1, m2)
    ensures AllSame(m0, m2)
  {
  }

  lemma AllSameButOne(m0: map<Key, Shown>, m1: map<Key, Shown>, m2: map<Key, Shown>, key: Key)
    requires AllSame(m0, m1) && (AllSame(m1, m2) || SameShown(m1, m2, key))
    ensures SameShown(m0, m2, key)
  {
  }

  /**
   * The item of the key itself after a store, `taken` references having been given back since m0: linked just now if
   * the store replied STORED, else the one that was there, perhaps bumped.
   */
  ghost predicate OwnLook(m0: map<Key, Shown>, m1: map<Key, Shown>, key: Key, taken: nat, stored: bool, now: nat) {
    key in m1 ==>
      if stored then m1[key].realtime == now
      else key in m0 && m1[key].refcount + taken == m0[key].refcount
           && m1[key] == m0[key].(refcount := m1[key].refcount, realtime := m1[key].realtime)
  }

  /** A lookup leaves one reference more on the item it found, and nothing else. */
  ghost predicate LookedAt(m0: map<Key, Shown>, m1: map<Key, Shown>, key: Key) {
    key in m0 && key in m1 && m1[key] == m0[key].(refcount := m0[key].refcount + 1)
  }

  /** A store that has given back what its lookup took. */
  lemma OwnLookOn(
      m0: map<Key, Shown>, m1: map<Key, Shown>, m2: map<Key, Shown>, key: Key, stored: bool, now: nat)
    requires OwnLook(m1, m2, key, 1, stored, now) && (key in m2 && !stored ==> LookedAt(m0, m1, key))
    ensures OwnLook(m0, m2, key, 0, stored, now)
  {
  }

  /** The key's own item once the client of a store has let go: one reference and no bump since, if it was stored. */
  ghost predicate OwnAfter(m0: map<Key, Shown>, m1: map<Key, Shown>, key: Key, stored: bool, now: nat) {
    OwnLook(m0, m1, key, 0, stored, now) && (stored && key in m1 ==> m1[key].refcount == 1)
  }

  /** The release of an item the client offered: one reference less if it is linked, else nothing to see. */
  ghost predicate OwnLess(m0: map<Key, Shown>, m1: map<Key, Shown>, key: Key, linked: bool) {
    if linked then key in m0 && key in m1 && m1[key].refcount + 1 == m0[key].refcount
                   && m1[key] == m0[key].(refcount := m1[key].refcount)
    else AllSame(m0, m1)
  }

  lemma OwnReleased(
      m0: map<Key, Shown>, m1: map<Key, Shown>, m2: map<Key, Shown>, key: Key, linked: bool, stored: bool, now: nat)
    requires OwnLook(m0, m1, key, 0, stored, now) && OwnLess(m1, m2, key, linked) && (linked ==> stored)
    requires stored && key in m1 ==> m1[key].refcount == if linked then 2 else 1
    ensures OwnAfter(m0, m2, key, stored, now)
  {
  }

  lemma SameShownNot(m: map<Key, Shown>, key: Key)
    ensures SameShown(m, m, key)
  {
  }

  lemma SameShownOn(m0: map<Key, Shown>, m1: map<Key, Shown>, m2: map<Key, Shown>, key: Key)
    requires SameShown(m0, m1, key) && SameShown(m1, m2, key)
    ensures SameShown(m0, m2, key)
  {
  }

  /** The size of a chunk of each class. */
  ghost function ChunkSizes(geo: seq<Geometry>): (s: seq<nat>)
    ensures |s| == |geo| && forall c {:trigger s[c]} :: 0 <= c < |geo| ==> s[c] == geo[c].size
  {
    seq(|geo|, c requires 0 <= c < |geo| => geo[c].size)
  }

  /**
   * Everything about the four structures that is not inside an item: the chunk size of each class, all chunks, those
   * handed out with the bytes charged, the linked items, the LRU lists, the filled items, the id counter and the latest
   * time seen.
   */
  datatype Picture = Picture(
    sizes: seq<nat>, chunks: set<BaseItem>, out: seq<map<BaseItem, nat>>, members: set<BaseItem>,
    lists: seq<seq<BaseItem>>, ready: set<BaseItem>, casId: nat, clock: nat)

  /**
   * How the structures fit together: linked items are ready, ready items are handed out by the class they lie in, an
   * item is linked exactly when it is on the LRU list of its class, and no item is charged more than its chunk holds.
   */
  ghost predicate Cross(p: Picture) {
    && p.members <= p.ready <= p.chunks
    && |p.lists| == POWER_LARGEST && 0 < |p.out| <= POWER_LARGEST && |p.sizes| == |p.out|
    && (forall c, x {:trigger p.out[c][x]} :: 0 <= c < |p.out| && x in p.out[c] ==> p.out[c][x] <= p.sizes[c])
    && (forall x {:trigger x in p.ready} :: x in p.ready ==> 0 < x.home < |p.out| && x in p.out[x.home])
    && (forall x {:trigger x in p.members} :: x in p.members ==> x.home < |p.lists| && x in p.lists[x.home])
    && (forall c {:trigger p.lists[c]} :: 0 <= c < |p.lists| ==> forall x :: x in p.lists[c] ==> x in p.members)
  }

  /**
   * One filled item: ITEM_LINKED is set exactly when it is linked, its reference count is the link plus every
   * reference a client holds, has leaked or is just dropping, and the bytes charged for it are its size.
   */
  ghost predicate ReadyOk(x: BaseItem, linked: bool, charge: nat, casId: nat, clock: nat)
    reads x
  {
    && !x.flag.slabbed && (x.flag.linked <==> linked)
    && x.refcount == (if linked then 1 else 0) + x.handles + x.leaks
    && charge == ItemTotal(x.key, x.value)
    && (linked ==> 1 <= x.cas <= casId && x.realtime <= clock)
  }

  /**
   * Every filled item is in order, no two linked items share a CAS id, and every chunk handed out carries its class.
   */
  ghost predicate ItemsOk(p: Picture)
    requires Cross(p)
    reads p.chunks
  {
    && (forall x {:trigger x in p.ready} :: x in p.ready ==>
        ReadyOk(x, x in p.members, p.out[x.home][x], p.casId, p.clock))
    && (forall x, y :: x in p.members && y in p.members && x.cas == y.cas ==> x == y)
    && (forall x {:trigger x in p.chunks} :: x in p.chunks && x.home < |p.out| && x in p.out[x.home] ==>
        x.clsid == x.home)
  }

  /** The fields of an item that are neither links nor expiry. */
  datatype Scalars = Scalars(
    flag: ItemFlag, refcount: nat, handles: nat, leaks: nat,
    key: Key, value: Blob, cas: nat, realtime: nat, clsid: nat)

  ghost function ScalarsOf(x: BaseItem): Scalars
    reads x
  {
    Scalars(x.flag, x.refcount, x.handles, x.leaks, x.key, x.value, x.cas, x.realtime, x.clsid)
  }

  /** A change to one item, with the picture before and after. */
  datatype Change = Change(before: Picture, after: Picture, it: BaseItem) {
    /** Nothing is said differently of any other item. */
    ghost predicate Local()
      requires Cross(before) && Cross(after)
    {
      && before.casId <= after.casId && before.clock <= after.clock
      && (forall x {:trigger x in after.ready} :: x in after.ready && x != it ==>
            && x in before.ready && (x in after.members <==> x in before.members)
            && after.out[x.home][x] == before.out[x.home][x])
      && (forall x {:trigger x in after.chunks} :: x in after.chunks && Still(x) ==>
            x in before.chunks && x.home < |before.out| && x in before.out[x.home])
    }

    /** Another item that is handed out afterwards. */
    ghost predicate Still(x: BaseItem) {
      x != it && x.home < |after.out| && x in after.out[x.home]
    }
  }

  /** A change to one item keeps all the others in order. */
  twostate lemma ItemsKept(ch: Change)
    requires Cross(ch.before) && Cross(ch.after) && ch.Local()
    requires old(ItemsOk(ch.before))
    requires forall x {:trigger x in ch.after.chunks} ::
                x in ch.after.chunks && ch.Still(x) ==> ScalarsOf(x) == old(ScalarsOf(x))
    requires ch.it in ch.after.ready ==>
               ReadyOk(ch.it, ch.it in ch.after.members, ch.after.out[ch.it.home][ch.it], ch.after.casId,
                   ch.after.clock)
    requires ch.it in ch.after.members ==>
              (ch.it in ch.before.members && ch.it.cas == old(ch.it.cas)) || ch.it.cas > ch.before.casId
    requires ch.it.home < |ch.after.out| && ch.it in ch.after.out[ch.it.home] ==> ch.it.clsid == ch.it.home
    ensures ItemsOk(ch.after)
  {
    forall x | x in ch.after.ready && x != ch.it
      ensures ReadyOk(x, x in ch.after.members, ch.after.out[x.home][x], ch.after.casId, ch.after.clock)
    {
      assert x in ch.after.chunks && ch.Still(x) && x in ch.before.ready;
      assert old(ReadyOk(x, x in ch.before.members, ch.before.out[x.home][x], ch.before.casId, ch.before.clock));
    }
  }

  /** Items that keep their scalars stay in order. */
  twostate lemma AllKept(p: Picture)
    requires Cross(p) && old(ItemsOk(p))
    requires forall x {:trigger x in p.chunks} :: x in p.chunks ==> ScalarsOf(x) == old(ScalarsOf(x))
    ensures ItemsOk(p)
  {
    forall x | x in p.ready ensures ReadyOk(x, x in p.members, p.out[x.home][x], p.casId, p.clock) {
      assert x in p.chunks && old(ReadyOk(x, x in p.members, p.out[x.home][x], p.casId, p.clock));
    }
    assert forall x :: x in p.members ==> x in p.chunks && x.cas == old(x.cas);
  }

  /** A new item that is not filled yet, perhaps on a new page, keeps all the others in order. */
  twostate lemma RawKept(before: Picture, new after: Picture, new it: BaseItem)
    requires Cross(before) && Cross(after) && Change(before, after, it).Local()
    requires old(ItemsOk(before)) && it !in after.ready
    requires forall x {:trigger x in before.chunks} ::
                x in before.chunks && x != it ==> ScalarsOf(x) == old(ScalarsOf(x))
    requires it.clsid == it.home
    ensures ItemsOk(after)
  {
    var ch := Change(before, after, it);
    forall x | x in after.chunks && x.home < |after.out| && x in after.out[x.home] ensures x.clsid == x.home {
      if x != it {
        assert ch.Still(x) && x in before.chunks;
      }
    }
    forall x | x in after.ready
      ensures ReadyOk(x, x in after.members, after.out[x.home][x], after.casId, after.clock) && x in before.ready
    {
      assert x in after.chunks && ch.Still(x) && x in before.ready;
      assert old(ReadyOk(x, x in before.members, before.out[x.home][x], before.casId, before.clock));
    }
    assert forall x :: x in after.members ==> x in before.members && x.cas == old(x.cas);
  }

  /**
   * What one operation meets outside the store: the time, whether the try_lock on a bucket fails at a given try,
   * whether realloc and malloc succeed, and the setting evict_to_free.
   */
  datatype World = World(now: nat, busy: (nat, nat) -> bool, reallocOk: bool, mallocOk: bool, evictToFree: bool)

  /** Somebody has the lock of this bucket all the time. */
  ghost predicate Locked(busy: (nat, nat) -> bool, b: nat) { forall t: nat :: 1 <= t <= 5 ==> busy(t, b) }

  /** How an item looked when the scan started: all that the scan's choices depend on. */
  datatype Look = Look(placeholder: bool, refcount: nat, exptime: nat, aged: bool, bucket: nat)

  /** A scan: list, index and map at its start, the looks of the items, what has been taken out since, and the place. */
  datatype Track = Track(
    l0: seq<BaseItem>, k0: map<BaseItem, Key>, v0: View, seen: seq<Look>, gone: set<BaseItem>, lost: set<Key>,
    victim: int)

  /** Pass on, reuse the item, return a chunk from the slab, return null, or follow a null pointer. */
  datatype Pick = Skip | Reuse | Chunk | Nothing | Fault

  /** What the scan does with an item that is not a placeholder and whose bucket it has locked. */
  function PickFor(refcount: nat, exptime: nat, now: nat, slabOk: bool, evictToFree: bool): Pick {
    if refcount != 1 then Skip
    else if exptime != 0 && exptime < now then Reuse
    else if slabOk then Chunk
    else if evictToFree then Reuse
    else Nothing
  }

  /** The result of a scan that stopped at this item. */
  ghost predicate Picked(pick: Pick, it: BaseItem?, search: BaseItem) {
    match pick
    case Reuse => it == search
    case Chunk => it != null && it != search
    case Nothing => it == null
    case _ => false
  }

  /** An expired item is reused; otherwise a chunk decides, and after that the setting. */
  lemma PickedBy(exptime: nat, w: World, can: bool, it: BaseItem?, search: BaseItem)
    requires exptime != 0 && exptime < w.now ==> it == search
    requires !(exptime != 0 && exptime < w.now) ==>
               if can then it != null && it != search else it == if w.evictToFree then search else null
    ensures Picked(PickFor(1, exptime, w.now, can, w.evictToFree), it, search)
  {
  }

  /** How many items from position v on the scan is charged for: those that are not placeholders. */
  ghost function Charged(seen: seq<Look>, v: nat): nat
    decreases |seen| - v
  {
    if v >= |seen| then 0 else (if seen[v].placeholder then 0 else 1) + Charged(seen, v + 1)
  }

  /** The value of `tries` when the scan is at position v. */
  ghost function TryAt(seen: seq<Look>, v: nat): nat {
    if Charged(seen, v + 1) <= 5 then 5 - Charged(seen, v + 1) else 0
  }

  /** The scan gets hold of the item at v: it is not a placeholder, and the lock of its bucket is free at that try. */
  ghost predicate Reached(seen: seq<Look>, v: nat, busy: (nat, nat) -> bool)
    requires v < |seen|
  {
    !seen[v].placeholder && !busy(TryAt(seen, v), seen[v].bucket)
  }

  lemma ReachedMeans(seen: seq<Look>, v: nat, tries: nat, busy: (nat, nat) -> bool)
    requires v < |seen| && tries == TryAt(seen, v)
    ensures Reached(seen, v, busy) <==> !seen[v].placeholder && !busy(tries, seen[v].bucket)
  {
  }

  /** Every item after position v was out of reach or held. */
  ghost predicate AllAfter(seen: seq<Look>, v: int, busy: (nat, nat) -> bool) {
    forall j: nat :: j < |seen| && v < j ==> !Reached(seen, j, busy) || seen[j].refcount != 1
  }

  /** The items from position v on that the tail repair takes out: reached, held, and aged. */
  ghost function Repaired(l: seq<BaseItem>, seen: seq<Look>, v: nat, busy: (nat, nat) -> bool): set<BaseItem>
    requires |l| == |seen|
    decreases |l| - v
  {
    if v >= |l| then {}
    else
      Repaired(l, seen, v + 1, busy)
      + if Reached(seen, v, busy) && seen[v].refcount != 1 && seen[v].aged then {l[v]} else {}
  }

  lemma {:induction false} RepairedAreCharged(l: seq<BaseItem>, seen: seq<Look>, v: nat, busy: (nat, nat) -> bool)
    requires |l| == |seen|
    ensures |Repaired(l, seen, v, busy)| <= Charged(seen, v)
    decreases |l| - v
  {
    if v < |l| { RepairedAreCharged(l, seen, v + 1, busy); }
  }

  /** What is known of an item the tail repair has taken out. */
  lemma {:induction false} RepairedAt(
      l: seq<BaseItem>, seen: seq<Look>, v: nat, busy: (nat, nat) -> bool, x: BaseItem) returns (j: nat)
    requires |l| == |seen| && x in Repaired(l, seen, v, busy)
    ensures v <= j < |l| && l[j] == x && Reached(seen, j, busy) && seen[j].refcount != 1 && seen[j].aged
    decreases |l| - v
  {
    if x in Repaired(l, seen, v + 1, busy) {
      j := RepairedAt(l, seen, v + 1, busy, x);
    } else {
      j := v;
    }
  }

  lemma {:induction false} ChargedDown(seen: seq<Look>, v: nat, j: nat)
    requires v <= j
    ensures Charged(seen, j) <= Charged(seen, v)
    decreases j - v
  {
    if v < j { ChargedDown(seen, v + 1, j); }
  }

  /** The scan makes five tries, so the lock of an item it got hold of was free at one of them. */
  lemma LockWasFree(seen: seq<Look>, v: nat, j: nat, busy: (nat, nat) -> bool)
    requires v <= j < |seen| && Charged(seen, v) <= 5 && Reached(seen, j, busy)
    ensures !Locked(busy, seen[j].bucket)
  {
    ChargedDown(seen, v, j);
    assert 1 <= TryAt(seen, j) <= 5;
  }

  lemma ChargedAt(seen: seq<Look>, v: nat, busy: (nat, nat) -> bool)
    requires v < |seen| && Reached(seen, v, busy)
    ensures Charged(seen, v) == 1 + Charged(seen, v + 1)
  {
  }

  /** The items taken out are exactly those repaired, and the victim if it is reused. */
  ghost predicate TakenOut(c: Track, busy: (nat, nat) -> bool, it: BaseItem?) {
    && -1 <= c.victim < |c.l0| == |c.seen|
    && c.gone == Repaired(c.l0, c.seen, c.victim + 1, busy)
               + if c.victim >= 0 && it == c.l0[c.victim] then {c.l0[c.victim]} else {}
  }

  /** Each item taken out was charged for. */
  lemma GoneAreCharged(c: Track, busy: (nat, nat) -> bool, it: BaseItem?)
    requires TakenOut(c, busy, it)
    ensures |c.gone| <= Charged(c.seen, c.victim + 1) + (if c.victim >= 0 && it == c.l0[c.victim] then 1 else 0)
  {
    RepairedAreCharged(c.l0, c.seen, c.victim + 1, busy);
  }

  /** A scan that stopped did so at the first item that was reached and not held, and picked as it should. */
  ghost predicate Judged(c: Track, w: World, it: BaseItem?, can: bool) {
    && 0 <= c.victim < |c.l0| == |c.seen|
    && Reached(c.seen, c.victim, w.busy) && c.seen[c.victim].refcount == 1
    && Picked(PickFor(1, c.seen[c.victim].exptime, w.now, can, w.evictToFree), it, c.l0[c.victim])
  }

  lemma NothingMeansNone(c: Track, w: World, can: bool)
    requires Judged(c, w, null, can)
    ensures !can
  {
  }

  /** A turn that passes the item by, and repairs it exactly if it was reached, held and aged. */
  lemma Passed(c: Track, d: Track, busy: (nat, nat) -> bool, left: bool)
    requires TakenOut(c, busy, null) && AllAfter(c.seen, c.victim, busy) && 0 <= c.victim
    requires !Reached(c.seen, c.victim, busy) || c.seen[c.victim].refcount != 1
    requires left <==> Reached(c.seen, c.victim, busy) && c.seen[c.victim].aged
    requires d == c.(gone := d.gone, lost := d.lost, victim := c.victim - 1)
    requires d.gone == c.gone + if left then {c.l0[c.victim]} else {}
    ensures TakenOut(d, busy, null) && AllAfter(d.seen, d.victim, busy)
  {
    hide Reached;
  }

  /** A turn that stops at the item. */
  lemma Stopped(c: Track, d: Track, w: World, it: BaseItem?, left: bool, can: bool)
    requires TakenOut(c, w.busy, null) && 0 <= c.victim && (left <==> it == c.l0[c.victim])
    requires Reached(c.seen, c.victim, w.busy) && c.seen[c.victim].refcount == 1
    requires Picked(PickFor(1, c.seen[c.victim].exptime, w.now, can, w.evictToFree), it, c.l0[c.victim])
    requires d == c.(gone := d.gone, lost := d.lost) && d.gone == c.gone + if left then {c.l0[c.victim]} else {}
    ensures TakenOut(d, w.busy, it) && Judged(d, w, it, can)
  {
    hide Reached, PickFor;
  }

  /** The most an allocation may cost the map: at most five keys, of which at most one was not due for repair. */
  ghost predicate Costs(lost: set<Key>, repairs: set<Key>, victims: set<Key>) {
    lost <= repairs + victims && |lost| <= 5 && |lost - repairs| <= 1
  }

  /**
   * What an allocation takes out: at most five items, each from `tired` but for the one whose chunk it returns, which
   * may be from `spare`.
   */
  ghost predicate SpentOn(gone: set<BaseItem>, it: BaseItem?, tired: set<BaseItem>, spare: set<BaseItem>) {
    |gone| <= 5 && forall x {:trigger x in gone} :: x in gone ==> x in tired || (x == it && x in spare)
  }

  lemma NoneSpent(tired: set<BaseItem>, spare: set<BaseItem>)
    ensures SpentOn({}, null, tired, spare)
  {
  }

  /** As long as the caller's item has not been taken out, it does not matter which it is. */
  lemma WhoeverGets(gone: set<BaseItem>, it: BaseItem?, tired: set<BaseItem>, spare: set<BaseItem>)
    requires SpentOn(gone, null, tired, spare)
    ensures SpentOn(gone, it, tired, spare)
  {
  }

  lemma FewerThan<T>(a: set<T>, b: set<T>)
    requires a <= b
    ensures |a| <= |b|
  {
    assert b == a + (b - a);
  }

  ghost function KeysOf(xs: set<BaseItem>, k: map<BaseItem, Key>): set<Key> { set x | x in xs && x in k :: k[x] }

  lemma {:induction false} KeysAreFew(xs: set<BaseItem>, k: map<BaseItem, Key>)
    ensures |KeysOf(xs, k)| <= |xs|
    decreases |xs|
  {
    if x :| x in xs {
      KeysAreFew(xs - {x}, k);
      assert KeysOf(xs, k) == KeysOf(xs - {x}, k) + (if x in k then {k[x]} else {});
    }
  }

  /** The same seen from the keys. */
  lemma CostsOf(gone: set<BaseItem>, it: BaseItem?, k: map<BaseItem, Key>, tired: set<BaseItem>, spare: set<BaseItem>)
    requires SpentOn(gone, it, tired, spare)
    ensures Costs(KeysOf(gone, k), KeysOf(tired, k), KeysOf(spare, k))
  {
    var lost, repairs := KeysOf(gone, k), KeysOf(tired, k);
    KeysAreFew(gone, k);
    if it != null && it in k {
      FewerThan(lost - repairs, {k[it]});
    } else {
      assert lost - repairs == {};
    }
  }

  /** The least class whose chunks hold n bytes. */
  ghost predicate ClassFor(geo: seq<Geometry>, id: nat, n: nat) {
    && n > 0 && 1 <= id < |geo| && n <= geo[id].size
    && forall c :: 1 <= c < |geo| && n <= geo[c].size ==> id <= c
  }

  /**
   * What an allocation of `need` bytes meets: whether its class has a chunk or could have a page, the items that tail
   * repair may take out for it, and those of which one may be reused.
   */
  datatype Budget = Budget(
    geo: seq<Geometry>, need: nat, canMake: bool, tired: set<BaseItem>, spare: set<BaseItem>, keyOf: map<BaseItem, Key>)

  /** What the allocation that returned `it` took out, as items and as keys. */
  ghost predicate Spent(b: Budget, it: BaseItem?, gone: set<BaseItem>, lost: set<Key>) {
    && SpentOn(gone, it, b.tired, b.spare) && gone <= b.keyOf.Keys && lost == KeysOf(gone, b.keyOf)
    && (it != null ==> ClassFor(b.geo, it.home, b.need))
  }

  /** And it failed only for want of a chunk. */
  ghost predicate Made(b: Budget, it: BaseItem?, gone: set<BaseItem>, lost: set<Key>) {
    Spent(b, it, gone, lost) && (it == null ==> !b.canMake)
  }

  /** The same of an operation that allocates only to join: without a join it has room and takes out nothing. */
  ghost predicate Outlay(b: Budget, joins: bool, room: bool, it: BaseItem?, gone: set<BaseItem>, lost: set<Key>) {
    Spent(b, it, gone, lost) && (!room ==> joins && !b.canMake) && (!joins ==> it == null && gone == {})
  }

  lemma MadeOutlay(b: Budget, it: BaseItem?, gone: set<BaseItem>, lost: set<Key>)
    requires Made(b, it, gone, lost)
    ensures Outlay(b, true, it != null, it, gone, lost)
  {
  }

  /** The chunk is large enough. */
  lemma MadeFits(b: Budget, it: BaseItem, gone: set<BaseItem>, lost: set<Key>)
    requires Made(b, it, gone, lost)
    ensures it.home < |b.geo| && b.need <= b.geo[it.home].size
  {
  }

  lemma NoOutlay(b: Budget, joins: bool)
    ensures Outlay(b, joins, true, null, {}, {})
  {
  }

  /** What it costs the map. */
  ghost predicate Cheap(b: Budget, lost: set<Key>) {
    Costs(lost, KeysOf(b.tired, b.keyOf), KeysOf(b.spare, b.keyOf))
  }

  lemma SpentCosts(b: Budget, it: BaseItem?, gone: set<BaseItem>, lost: set<Key>)
    requires Spent(b, it, gone, lost)
    ensures Cheap(b, lost) && |gone| <= 5 && (gone == {} ==> lost == {})
  {
    CostsOf(gone, it, b.keyOf, b.tired, b.spare);
  }

  /** A budget that allows no more. */
  ghost predicate Tighter(b: Budget, c: Budget) {
    && b == c.(canMake := b.canMake, tired := b.tired, spare := b.spare)
    && (c.canMake ==> b.canMake) && b.tired <= c.tired && b.spare <= c.spare
  }

  lemma OutlayMore(
      b: Budget, c: Budget, joins: bool, joins2: bool, room: bool, it: BaseItem?, gone: set<BaseItem>, lost: set<Key>)
    requires Outlay(b, joins, room, it, gone, lost) && (joins ==> joins2 && Tighter(b, c))
    ensures Outlay(c, joins2, room, it, gone, lost)
  {
  }

  ghost function Only(x: BaseItem?): set<BaseItem> { if x == null then {} else {x} }

  /** A position in a list. */
  datatype Spot = Spot(l: seq<BaseItem>, v: nat)

  datatype Info = Info(scalars: Scalars, exptime: nat, ready: bool, handed: bool)

  ghost function Unreadied(p: Picture, it: BaseItem, ntotal: nat): Picture
    requires it.home < |p.out|
  {
    p.(ready := p.ready - {it}, out := p.out[it.home := Charge(p.out[it.home], it, ntotal)])
  }

  lemma UnreadyCross(p: Picture, it: BaseItem, ntotal: nat)
    requires Cross(p) && it in p.ready && it !in p.members
    requires it.home < |p.sizes| ==> ntotal <= p.sizes[it.home]
    ensures it.home < |p.out| && Cross(Unreadied(p, it, ntotal)) && Change(p, Unreadied(p, it, ntotal), it).Local()
  {
  }

  lemma SameLocal(p: Picture, it: BaseItem)
    requires Cross(p) && it.home < |p.out| && it in p.out[it.home]
    ensures Change(p, p, it).Local()
  {
  }

  lemma FilledCross(p: Picture, it: BaseItem)
    requires Cross(p) && it !in p.members && it in p.chunks && 0 < it.home < |p.out| && it in p.out[it.home]
    ensures var q := p.(ready := p.ready + {it}); Cross(q) && Change(p, q, it).Local()
    ensures Change(p, p, it).Local()
  {
  }

  lemma SlabFits(slab: Slab)
    requires slab.Valid()
    ensures 0 < |slab.out| == |slab.geo| <= POWER_LARGEST
  {
  }

  lemma NothingStored(p: Picture)
    requires p.chunks == p.members == p.ready == {} && |p.lists| == POWER_LARGEST && 0 < |p.out| <= POWER_LARGEST
    requires |p.sizes| == |p.out| && forall c {:trigger p.out[c]} :: 0 <= c < |p.out| ==> p.out[c] == map[]
    requires forall c :: 0 <= c < |p.lists| ==> p.lists[c] == []
    ensures Cross(p) && ItemsOk(p)
  {
  }

  lemma NoneWithout(s: seq<BaseItem>, m: set<BaseItem>)
    requires forall i {:trigger s[i]} :: 0 <= i < |s| ==> s[i] in m
    ensures s != [] ==> m != {}
  {
    if s != [] { assert s[0] in m; }
  }

  lemma SlabSizes(slab: Slab)
    requires slab.Valid()
    ensures |slab.memBase| == |slab.free| == |slab.out| == |slab.geo|
  {
  }

  ghost function Popped(p: Picture, it: BaseItem, ntotal: nat, chunks: set<BaseItem>): Picture
    requires it.home < |p.out|
  {
    p.(out := p.out[it.home := Charge(p.out[it.home], it, ntotal)], chunks := chunks)
  }

  lemma PoppedCross(p: Picture, it: BaseItem, ntotal: nat, chunks: set<BaseItem>)
    requires Cross(p) && it.home < |p.out| && it !in p.out[it.home] && p.chunks <= chunks
    requires ntotal <= p.sizes[it.home]
    requires forall c, x :: 0 <= c < |p.out| && x in p.out[c] ==> x in p.chunks
    ensures Cross(Popped(p, it, ntotal, chunks)) && Change(p, Popped(p, it, ntotal, chunks), it).Local()
    ensures it !in p.ready && it !in p.members
  {
  }

  lemma OutInChunks(slab: Slab)
    requires slab.Valid()
    ensures forall c, x :: 0 <= c < |slab.out| && x in slab.out[c] ==> x in slab.chunks && x.home == c
  {
    forall c, x | 0 <= c < |slab.out| && x in slab.out[c] ensures x in slab.chunks && x.home == c {
      ClassAt(slab.geo, slab.memBase, slab.free, slab.out, slab.chunks, c);
    }
  }

  /** A lookup that finds an item, seen on the map. */
  lemma LiveFound(keyOf: map<BaseItem, Key>, it: BaseItem, casId: nat, now: nat)
    requires Injective(keyOf) && it in keyOf
    ensures var s := State(ViewOf(keyOf), casId);
            && keyOf[it] in s.view
            && Live(s, keyOf[it], now)
            == if it.exptime != 0 && it.exptime <= now then State(Without(s.view, keyOf[it]), casId) else s
  {
  }

  /** A lookup that finds nothing, seen on the map. */
  lemma LiveMissed(keyOf: map<BaseItem, Key>, key: Key, casId: nat, now: nat)
    requires Injective(keyOf) && forall x :: x in keyOf ==> keyOf[x] != key
    ensures key !in ViewOf(keyOf) && Live(State(ViewOf(keyOf), casId), key, now) == State(ViewOf(keyOf), casId)
  {
  }

  /** One item of an index. */
  datatype KeyCut = KeyCut(keyOf: map<BaseItem, Key>, it: BaseItem)

  /** Taking an item out of the index takes its key out of the map. */
  twostate lemma ViewCut(c: KeyCut)
    requires Injective(c.keyOf) && c.it in c.keyOf
    requires forall x {:trigger x in c.keyOf} :: x in c.keyOf && x != c.it ==> EntryOf(x) == old(EntryOf(x))
    ensures Injective(c.keyOf - {c.it})
    ensures ViewOf(c.keyOf - {c.it}) == Without(old(ViewOf(c.keyOf)), c.keyOf[c.it])
  {
    var v, w := ViewOf(c.keyOf - {c.it}), Without(old(ViewOf(c.keyOf)), c.keyOf[c.it]);
    forall k ensures k in v <==> k in w {
      if k in v {
        var x :| x in c.keyOf - {c.it} && c.keyOf[x] == k;
        assert x in c.keyOf;
      }
      if k in w {
        var x :| x in c.keyOf && c.keyOf[x] == k;
        assert x in c.keyOf - {c.it};
      }
    }
    forall k | k in v ensures v[k] == w[k] {
      var x :| x in c.keyOf - {c.it} && c.keyOf[x] == k;
      assert x in c.keyOf;
    }
  }

  /** Linking an item puts its key into the map. */
  twostate lemma ViewPut(c: KeyCut)
    requires Injective(c.keyOf) && c.it !in c.keyOf && (forall x :: x in c.keyOf ==> c.keyOf[x] != c.it.key)
    requires forall x {:trigger x in c.keyOf} :: x in c.keyOf ==> EntryOf(x) == old(EntryOf(x))
    ensures Injective(Insert(c.keyOf, c.it, c.it.key)) && Insert(c.keyOf, c.it, c.it.key).Keys == c.keyOf.Keys + {c.it}
    ensures ViewOf(Insert(c.keyOf, c.it, c.it.key)) == old(ViewOf(c.keyOf))[c.it.key := EntryOf(c.it)]
  {
    hide ViewOf;
    var m, key := Insert(c.keyOf, c.it, c.it.key), c.it.key;
    var v, w := ViewOf(m), old(ViewOf(c.keyOf));
    assert c.it in m && m[c.it] == key;
    forall x | x in c.keyOf ensures x in m && m[x] == c.keyOf[x] && m[x] in v && v[m[x]] == w[m[x]] && m[x] in w {
    }
    forall k ensures k in v <==> k in w[key := EntryOf(c.it)] {
      if k in v { var x :| x in m && m[x] == k; }
      if k in w { var x :| x in c.keyOf && c.keyOf[x] == k; }
    }
    forall k | k in v ensures v[k] == w[key := EntryOf(c.it)][k] {
      var x :| x in m && m[x] == k;
    }
  }

  /** Overwriting the expiry of one item overwrites it in the map. */
  twostate lemma ViewTouched(c: KeyCut)
    requires Injective(c.keyOf) && c.it in c.keyOf
    requires forall x {:trigger x in c.keyOf} :: x in c.keyOf && x != c.it ==> EntryOf(x) == old(EntryOf(x))
    requires EntryOf(c.it) == old(EntryOf(c.it)).(exptime := c.it.exptime)
    ensures ViewOf(c.keyOf) == old(ViewOf(c.keyOf))[c.keyOf[c.it] := EntryOf(c.it)]
  {
    var v, w := ViewOf(c.keyOf), old(ViewOf(c.keyOf))[c.keyOf[c.it] := EntryOf(c.it)];
    forall k ensures k in v <==> k in w {
      if k in v { var x :| x in c.keyOf && c.keyOf[x] == k; }
      if k in w { var x :| x in c.keyOf && c.keyOf[x] == k; }
    }
    forall k | k in v ensures v[k] == w[k] {
      var x :| x in c.keyOf && c.keyOf[x] == k;
    }
  }

  /** A store of an offer leads from s, once the lost keys are gone, to t, with this outcome. */
  ghost predicate Answered(s: State, t: State, cmd: Cmd, o: Offer, room: bool, lost: set<Key>, outcome: Outcome) {
    && o.key !in lost
    && outcome == OutcomeOf(Decide(cmd, Lookup(s.view, o.key), o, room))
    && t == Apply(State(s.view - lost, s.lastCas), Resolve(cmd, o, room))
  }

  lemma Refused(s: State, cmd: Cmd, o: Offer, room: bool, lost: set<Key>, outcome: Outcome)
    requires o.key !in lost && Decide(cmd, Lookup(s.view, o.key), o, room) == Refuse(outcome)
    ensures Answered(s, State(s.view - lost, s.lastCas), cmd, o, room, lost, outcome)
    ensures lost == {} ==> State(s.view - lost, s.lastCas) == s
  {
    assert lost == {} ==> s.view - lost == s.view;
  }

  lemma Placed(s: State, cmd: Cmd, o: Offer, room: bool, lost: set<Key>)
    requires o.key !in lost && Decide(cmd, Lookup(s.view, o.key), o, room).Put?
    ensures var d := Decide(cmd, Lookup(s.view, o.key), o, room);
            Answered(s, Bind(State(s.view - lost, s.lastCas), o.key, d.value, d.exptime, d.flag), cmd, o, room, lost,
                Stored)
    ensures lost == {} ==> State(s.view - lost, s.lastCas) == s
  {
    assert lost == {} ==> s.view - lost == s.view;
  }

  /** An add of a bound key, and a replace, append or prepend of an unbound one. */
  lemma RefusedAtOnce(s: State, cmd: Cmd, o: Offer)
    requires if o.key in s.view then cmd == Add else cmd == Replace || cmd == Append || cmd == Prepend
    ensures Answered(s, s, cmd, o, true, {}, NotStored)
  {
    Refused(s, cmd, o, true, {}, NotStored);
  }

  /** A set, and an add or replace that is not refused. */
  lemma PlacedAtOnce(s: State, cmd: Cmd, o: Offer)
    requires cmd == Set || (cmd == Add && o.key !in s.view) || (cmd == Replace && o.key in s.view)
    ensures Answered(s, Bind(s, o.key, o.value, o.exptime, o.flag), cmd, o, true, {}, Stored)
  {
    Placed(s, cmd, o, true, {});
  }

  /** The map and the reply after a store at time now, less the keys evicted for it. */
  ghost predicate Replied(
      s: State, t: State, cmd: Cmd, o: Offer, now: nat, room: bool, lost: set<Key>, outcome: Outcome) {
    var r := Store(s, cmd, o, now, room);
    outcome == r.1 && o.key !in lost && t == State(r.0.view - lost, r.0.lastCas)
  }

  lemma LiveLines(s: State, k: Key, now: nat)
    requires LinesEnd(s.view)
    ensures LinesEnd(Live(s, k, now).view)
  {
  }

  lemma LiveEntry(s: State, k: Key, now: nat)
    ensures k in Live(s, k, now).view ==> k in s.view && Live(s, k, now).view[k] == s.view[k]
  {
  }

  lemma RepliedBy(
      s: State, live: State, t: State, cmd: Cmd, o: Offer, now: nat, room: bool, lost: set<Key>, outcome: Outcome)
    requires live == Live(s, o.key, now) && Answered(live, t, cmd, o, room, lost, outcome)
    ensures Replied(s, t, cmd, o, now, room, lost, outcome)
  {
    hide Decide;
    var d := Decide(cmd, Lookup(live.view, o.key), o, room);
    assert Lookup(live.view - lost, o.key) == Lookup(live.view, o.key);
    if d.Put? {
      assert Without(live.view - lost, o.key) == Without(live.view, o.key) - lost;
      var e := Entry(d.value, d.exptime, live.lastCas + 1, d.flag.rest);
      assert (live.view - lost)[o.key := e] == live.view[o.key := e] - lost;
    }
  }

  // ---------- who holds what during a store ----------

  /** The lookup takes one reference, and none if it finds nothing. */
  ghost predicate Borrowed(h0: map<BaseItem, nat>, h1: map<BaseItem, nat>, oldIt: BaseItem?) {
    && (forall x {:trigger x in h1} :: x in h1 ==> x in h0 && h1[x] == h0[x] + (if x == oldIt then 1 else 0))
    && (oldIt != null ==> oldIt in h1 && h1.Keys == h0.Keys)
  }

  /** The store takes one reference to the item it builds. */
  ghost predicate Built(h1: map<BaseItem, nat>, h2: map<BaseItem, nat>, newIt: BaseItem?, gone: set<BaseItem>) {
    && (forall x {:trigger x in h2} :: x in h2 ==>
          if x == newIt then h2[x] == 1 && (x in h1 ==> x in gone)
          else x in h1 && x !in gone && h2[x] == h1[x])
  }

  ghost predicate Returned(h2: map<BaseItem, nat>, h3: map<BaseItem, nat>, oldIt: BaseItem?, newIt: BaseItem?) {
    forall x {:trigger x in h3} :: x in h3 ==> x in h2 && h3[x] + (if x == oldIt || x == newIt then 1 else 0) == h2[x]
  }

  /** Everybody holds what they held before, and nobody holds what has come in since. */
  ghost predicate GivenBack(h0: map<BaseItem, nat>, h3: map<BaseItem, nat>, gone: set<BaseItem>) {
    forall x {:trigger x in h3} :: x in h3 ==> h3[x] == if x in h0 && x !in gone then h0[x] else 0
  }

  /** Clients hold one reference to each of these items and none to any other. */
  ghost predicate OnlyHeld(h: map<BaseItem, nat>, held: set<BaseItem>) {
    forall x {:trigger x in h} :: x in h ==> h[x] == if x in held then 1 else 0
  }

  /** What was waiting, but for `who`, still is, and nothing is said differently of it. */
  ghost predicate Stay(m0: map<BaseItem, Info>, m1: map<BaseItem, Info>, who: set<BaseItem>) {
    forall x {:trigger x in m1} {:trigger x in m0} :: x in m0 && x !in who ==> x in m1 && m1[x] == m0[x]
  }

  lemma StayOn(
      m0: map<BaseItem, Info>, m1: map<BaseItem, Info>, m2: map<BaseItem, Info>, a: set<BaseItem>, b: set<BaseItem>,
      who: set<BaseItem>)
    requires Stay(m0, m1, a) && Stay(m1, m2, b) && a <= who
    requires forall x {:trigger x in b} :: x in b ==> x in who || x !in m0
    ensures Stay(m0, m2, who)
  {
  }

  /** A lookup that gives its reference back leaves what is held as it was. */
  lemma LookedUpAndReturned(
      h0: map<BaseItem, nat>, h1: map<BaseItem, nat>, h2: map<BaseItem, nat>, it: BaseItem, held: set<BaseItem>)
    requires OnlyHeld(h0, held) && Borrowed(h0, h1, it) && Returned(h1, h2, it, null)
    ensures OnlyHeld(h2, held)
  {
  }

  lemma NothingTaken(h0: map<BaseItem, nat>, h1: map<BaseItem, nat>, held: set<BaseItem>)
    requires OnlyHeld(h0, held) && Borrowed(h0, h1, null)
    ensures OnlyHeld(h1, held)
  {
  }

  /** What is held has not been taken out, nor has it become ready. */
  ghost predicate Awaited(h0: map<BaseItem, nat>, h1: map<BaseItem, nat>, held: set<BaseItem>, gone: set<BaseItem>) {
    forall x {:trigger x in held} :: x in held ==> x !in gone && (x in h1 ==> x in h0)
  }

  /** A store, and the release of its own item: what had been waiting is still held, but for that item. */
  lemma StoredAndReleased(
      h0: map<BaseItem, nat>, h1: map<BaseItem, nat>, h2: map<BaseItem, nat>, it: BaseItem, gone: set<BaseItem>,
      held: set<BaseItem>)
    requires OnlyHeld(h0, held) && it in held && GivenBack(h0, h1, gone) && Returned(h1, h2, it, null)
    requires Awaited(h0, h1, held, gone)
    ensures OnlyHeld(h2, held - {it})
  {
  }

  /**
   * The store before an operation, as values: the map, who holds and waits, what is said of whom, the memory, and what
   * a join would meet.
   */
  datatype Snapshot = Snapshot(
    s: State, shown: map<Key, Shown>, handles: map<BaseItem, nat>, waiting: map<BaseItem, Info>,
    infos: map<BaseItem, Info>, owners: set<BaseItem>, handed: set<BaseItem>, mem: Memory, budget: Budget)

  lemma AllGivenBack(
      h0: map<BaseItem, nat>, h1: map<BaseItem, nat>, h2: map<BaseItem, nat>, h3: map<BaseItem, nat>,
      oldIt: BaseItem?, newIt: BaseItem?, gone: set<BaseItem>)
    requires Borrowed(h0, h1, oldIt) && Built(h1, h2, newIt, gone) && Returned(h2, h3, oldIt, newIt)
    requires newIt != null ==> oldIt != null && newIt != oldIt
    ensures GivenBack(h0, h3, gone)
  {
  }

  lemma JoinLength(key: Key, cmd: Cmd, prior: Blob, add: Blob)
    requires |prior| >= 2 && |add| >= 2
    ensures ItemTotal(key, Join(cmd, prior, add)) == HEADER + |key| + 1 + (|add| + |prior| - 2)
  {
  }

  lemma UnboundKey(keyOf: map<BaseItem, Key>, key: Key)
    requires Injective(keyOf) && key !in ViewOf(keyOf)
    ensures forall x :: x in keyOf ==> keyOf[x] != key
  {
  }

  lemma BindLinks(s: State, k: Key, value: Blob, exptime: nat, flag: ItemFlag)
    requires !flag.Dirty()
    ensures Bind(s, k, value, exptime, flag) ==
              State(s.view[k := Entry(value, exptime, s.lastCas + 1, flag.rest)], s.lastCas + 1)
  {
  }

  lemma BindRefused(s: State, k: Key, value: Blob, exptime: nat, flag: ItemFlag)
    requires flag.Dirty() && k !in s.view
    ensures Bind(s, k, value, exptime, flag) == s
  {
    assert Without(s.view, k) == s.view;
  }

  /** Binding a key that has just been taken out is binding it. */
  lemma BindAfter(s: State, k: Key, value: Blob, exptime: nat, flag: ItemFlag)
    ensures k !in Without(s.view, k)
    ensures Bind(State(Without(s.view, k), s.lastCas), k, value, exptime, flag) == Bind(s, k, value, exptime, flag)
  {
    assert Without(Without(s.view, k), k) == Without(s.view, k);
    var e := Entry(value, exptime, s.lastCas + 1, flag.rest);
    assert Without(s.view, k)[k := e] == s.view[k := e];
  }

  /** Items that keep what the map says of them keep the map. */
  twostate lemma SameView(keyOf: map<BaseItem, Key>)
    requires Injective(keyOf)
    requires forall x {:trigger x in keyOf} :: x in keyOf ==> EntryOf(x) == old(EntryOf(x))
    ensures ViewOf(keyOf) == old(ViewOf(keyOf))
  {
    var v, w := ViewOf(keyOf), old(ViewOf(keyOf));
    forall k ensures k in v <==> k in w {
      if k in v { var x :| x in keyOf && keyOf[x] == k; }
      if k in w { var x :| x in keyOf && keyOf[x] == k; }
    }
    forall k | k in v ensures v[k] == w[k] {
      var x :| x in keyOf && keyOf[x] == k;
    }
  }

  lemma NodesIn(p: Picture, q: LruQueues)
    requires Cross(p) && p.lists == q.lists
    ensures q.Nodes() <= p.chunks
  {
    forall x | x in q.Nodes() ensures x in p.chunks {
      var c, i :| 0 <= c < |q.lists| && 0 <= i < |q.lists[c]| && q.lists[c][i] == x;
      assert x in p.lists[c];
    }
  }

  /** The lists agree up to and including position v. */
  ghost predicate SameUpTo(l: seq<BaseItem>, l0: seq<BaseItem>, v: int) {
    -1 <= v < |l| && v < |l0| && l[..v + 1] == l0[..v + 1]
  }

  lemma SameAt(l: seq<BaseItem>, l0: seq<BaseItem>, v: nat)
    requires SameUpTo(l, l0, v)
    ensures v < |l| && v < |l0| && l[v] == l0[v]
  {
    assert l[v] == l[..v + 1][v];
  }

  /** Each item that is not a placeholder costs one of five tries. */
  ghost predicate Paced(seen: seq<Look>, v: int, tries: nat, stop: bool) {
    -1 <= v && Charged(seen, v + 1) <= 5 && (!stop ==> tries + Charged(seen, v + 1) == 5)
  }

  lemma PacedStep(seen: seq<Look>, v: nat, tries: nat)
    requires Paced(seen, v, tries, false) && v < |seen| && tries > 0
    ensures tries == TryAt(seen, v) && 1 <= tries <= 5
    ensures Paced(seen, v - 1, if seen[v].placeholder then tries else tries - 1, false)
    ensures forall left: nat :: Paced(seen, v, left, true)
    ensures Charged(seen, v) <= 5
  {
  }

  lemma SameStep(l: seq<BaseItem>, l2: seq<BaseItem>, l0: seq<BaseItem>, v: nat)
    requires SameUpTo(l, l0, v) && v <= |l2| && l2[..v] == l[..v]
    ensures SameUpTo(l2, l0, v - 1) && l[v] == l0[v]
  {
    assert l2[..v] == l[..v + 1][..v];
    assert l[v] == l[..v + 1][v];
  }

  /** What a scan has taken out: the items `gone` of the index and their keys `lost` of the map. */
  ghost predicate Tally(
      k0: map<BaseItem, Key>, k: map<BaseItem, Key>, v0: View, v: View, gone: set<BaseItem>, lost: set<Key>) {
    && k == k0 - gone && v == v0 - lost && gone <= k0.Keys
    && lost == KeysOf(gone, k0) && |lost| <= |gone|
  }

  lemma NothingTallied(k0: map<BaseItem, Key>, v0: View)
    ensures Tally(k0, k0, v0, v0, {}, {})
  {
    assert k0 - {} == k0 && v0 - {} == v0;
  }

  lemma Tallied(
      k0: map<BaseItem, Key>, k: map<BaseItem, Key>, v0: View, v: View, gone: set<BaseItem>, lost: set<Key>,
      x: BaseItem, key: Key)
    requires Tally(k0, k, v0, v, gone, lost) && x in k && k[x] == key
    ensures Tally(k0, k - {x}, v0, v - {key}, gone + {x}, lost + {key})
  {
    assert k0 - gone - {x} == k0 - (gone + {x});
    assert v0 - lost - {key} == v0 - (lost + {key});
    assert KeysOf(gone + {x}, k0) == KeysOf(gone, k0) + {key};
  }

  lemma DropPrefix(s: seq<BaseItem>, k: nat, pos: nat)
    requires k < |s| && pos < |s| && s[k] == s[pos] && Distinct(s)
    ensures k == pos && pos <= |Drop(s, k)| && Drop(s, k)[..pos] == s[..pos]
    ensures At(Drop(s, k), pos - 1) == At(s, pos - 1)
  {
  }

  lemma DroppedFacts(s: seq<BaseItem>, k: nat)
    requires k < |s| && Distinct(s)
    ensures s[k] !in Drop(s, k) && forall x :: x in Drop(s, k) ==> x in s && x != s[k]
    ensures forall i {:trigger Drop(s, k)[i]} :: 0 <= i < |Drop(s, k)| ==> Drop(s, k)[i] in s && Drop(s, k)[i] != s[k]
  {
    DropMembers(s, k);
    assert forall i :: 0 <= i < |Drop(s, k)| ==> Drop(s, k)[i] in Drop(s, k);
  }

  ghost function Bumped(p: Picture, it: BaseItem, k: nat, now: nat): Picture
    requires it.home < |p.lists| && k < |p.lists[it.home]|
  {
    p.(lists := p.lists[it.home := [it] + Drop(p.lists[it.home], k)], clock := now)
  }

  lemma BumpedCross(p: Picture, it: BaseItem, k: nat, now: nat)
    requires Cross(p) && it in p.members && it.home < |p.lists| && k < |p.lists[it.home]| && p.lists[it.home][k] == it
    requires p.clock <= now
    ensures Cross(Bumped(p, it, k, now)) && Change(p, Bumped(p, it, k, now), it).Local()
  {
    var s := p.lists[it.home];
    forall x | x in s ensures x in [it] + Drop(s, k) {
      var i :| 0 <= i < |s| && s[i] == x;
      if i < k { assert x == ([it] + Drop(s, k))[i + 1]; }
      if i > k { assert x == ([it] + Drop(s, k))[i]; }
    }
  }

  ghost function Attached(p: Picture, it: BaseItem, now: nat): Picture
    requires it.home < |p.lists|
  {
    p.(members := p.members + {it}, lists := p.lists[it.home := [it] + p.lists[it.home]], casId := p.casId + 1,
      clock := now)
  }

  lemma AttachedCross(p: Picture, it: BaseItem, now: nat)
    requires Cross(p) && it in p.ready && it !in p.members && p.clock <= now
    ensures it.home < |p.lists| && it !in p.lists[it.home]
    ensures forall x :: x in p.lists[it.home] ==> x in p.members
    ensures Cross(Attached(p, it, now)) && Change(p, Attached(p, it, now), it).Local()
  {
  }

  /** The present is not before anything on the list. */
  lemma TimesAt(p: Picture, it: BaseItem, now: nat)
    requires Cross(p) && ItemsOk(p) && it in p.ready && p.clock <= now
    ensures it.home < |p.lists| && forall x :: x in p.lists[it.home] ==> x.realtime <= now
  {
    forall x | x in p.lists[it.home] ensures x.realtime <= now {
      assert x in p.ready && ReadyOk(x, x in p.members, p.out[x.home][x], p.casId, p.clock);
    }
  }

  lemma MemberAt(p: Picture, it: BaseItem) returns (k: nat)
    requires Cross(p) && it in p.members
    ensures p.members <= p.ready <= p.chunks
    ensures it in p.ready && it.home < |p.lists| == POWER_LARGEST
    ensures forall x :: x in p.lists[it.home] ==> x in p.members
    ensures k < |p.lists[it.home]| && p.lists[it.home][k] == it
  {
    k :| 0 <= k < |p.lists[it.home]| && p.lists[it.home][k] == it;
  }

  lemma QueueFacts(q: LruQueues)
    requires q.Valid()
    ensures forall c :: 0 <= c < |q.lists| ==> Distinct(q.lists[c])
    ensures forall c, x :: 0 <= c < |q.lists| && x in q.lists[c] ==> x.home == c
    ensures forall c, i {:trigger q.lists[c][i]} ::
                0 <= c < |q.lists| && 0 <= i < |q.lists[c]| ==> q.lists[c][i] in q.lists[c]
  {
    forall c | 0 <= c < |q.lists| ensures Distinct(q.lists[c]) {
      assert Queue(q.lists[c]);
    }
  }

  lemma ChainsApart(t: HashTable)
    requires t.Valid()
    ensures Injective(t.keyOf)
    ensures forall b, i {:trigger t.chains[b][i]} ::
                0 <= b < |t.chains| && 0 <= i < |t.chains[b]| ==> t.chains[b][i] in t.keyOf
  {
    forall b, i {:trigger t.chains[b][i]} | 0 <= b < |t.chains| && 0 <= i < |t.chains[b]|
      ensures t.chains[b][i] in t.keyOf
    {
      assert t.chains[b][i] in t.chains[b];
    }
  }

  lemma KeyFacts(t: HashTable, it: BaseItem)
    requires t.Valid() && it in t.keyOf
    ensures t.bucketOf(it.key) < |t.chains| && forall x :: x in t.chains[t.bucketOf(it.key)] ==> x in t.keyOf
    ensures Injective(t.keyOf) && t.keyOf[it] == it.key && it in t.chains[t.bucketOf(it.key)]
    ensures forall b, i {:trigger t.chains[b][i]} ::
                0 <= b < |t.chains| && 0 <= i < |t.chains[b]| ==> t.chains[b][i] in t.keyOf
  {
    forall b, i {:trigger t.chains[b][i]} | 0 <= b < |t.chains| && 0 <= i < |t.chains[b]|
      ensures t.chains[b][i] in t.keyOf
    {
      assert t.chains[b][i] in t.chains[b];
    }
  }

  /** The members of the free lists are not ready. */
  lemma FreeApart(slab: Slab, p: Picture)
    requires slab.Valid() && Cross(p) && p.out == slab.out
    ensures forall c, i {:trigger slab.free[c][i]} ::
                0 <= c < |slab.free| && 0 <= i < |slab.free[c]| ==> slab.free[c][i] !in p.ready
    ensures forall c, x :: 0 <= c < |slab.free| && x in slab.free[c] ==> x in slab.chunks && x !in p.ready
    ensures p.members <= p.ready <= p.chunks
    ensures |slab.memBase| == |slab.free| == |slab.out| == |slab.geo| <= |p.lists| == POWER_LARGEST
  {
    hide MemoryOk, GoodTable, FreeList;
    forall c, x | 0 <= c < |slab.free| && x in slab.free[c] ensures x in slab.chunks && x !in p.ready {
      ClassAt(slab.geo, slab.memBase, slab.free, slab.out, slab.chunks, c);
    }
    forall c, i | 0 <= c < |slab.free| && 0 <= i < |slab.free[c]| ensures slab.free[c][i] !in p.ready {
      ClassAt(slab.geo, slab.memBase, slab.free, slab.out, slab.chunks, c);
      assert slab.free[c][i] in slab.free[c];
    }
  }

  ghost function Detached(p: Picture, it: BaseItem, k: nat): Picture
    requires it.home < |p.lists| && k < |p.lists[it.home]|
  {
    p.(members := p.members - {it}, lists := p.lists[it.home := Drop(p.lists[it.home], k)])
  }

  lemma DetachedCross(p: Picture, it: BaseItem, k: nat)
    requires Cross(p) && it in p.members && it.home < |p.lists| && k < |p.lists[it.home]|
    requires p.lists[it.home][k] == it && Distinct(p.lists[it.home])
    requires forall c, x :: 0 <= c < |p.lists| && x in p.lists[c] ==> x.home == c
    ensures Cross(Detached(p, it, k)) && Change(p, Detached(p, it, k), it).Local()
  {
    DropMembers(p.lists[it.home], k);
  }

  /** What is known of a handed-out item. */
  lemma ItemAt(p: Picture, it: BaseItem)
    requires Cross(p) && ItemsOk(p) && it in p.chunks && it.home < |p.out| && it in p.out[it.home]
    ensures it.clsid == it.home && p.members <= p.ready <= p.chunks
    ensures it in p.ready ==> 0 < it.home && ReadyOk(it, it in p.members, p.out[it.home][it], p.casId, p.clock)
  {
  }

  /** A handed-out chunk is on no free list. */
  lemma HandedApart(slab: Slab, it: BaseItem)
    requires slab.Valid() && it.home < |slab.out| && it in slab.out[it.home]
    ensures forall c, i {:trigger slab.free[c][i]} ::
                0 <= c < |slab.free| && 0 <= i < |slab.free[c]| ==> slab.free[c][i] != it
  {
    hide MemoryOk, GoodTable, FreeList;
    forall c, i | 0 <= c < |slab.free| && 0 <= i < |slab.free[c]| ensures slab.free[c][i] != it {
      ClassAt(slab.geo, slab.memBase, slab.free, slab.out, slab.chunks, c);
      assert slab.free[c][i] in slab.free[c];
    }
  }

  lemma ReadyAt(p: Picture, it: BaseItem)
    requires Cross(p) && ItemsOk(p) && it in p.ready
    ensures 0 < it.home < |p.out| && it in p.out[it.home] && it in p.chunks && it.clsid == it.home
    ensures ReadyOk(it, it in p.members, p.out[it.home][it], p.casId, p.clock)
  {
  }

  twostate lemma WasReady(p: Picture, new it: BaseItem)
    requires Cross(p) && old(ItemsOk(p)) && it in p.ready
    ensures 0 < it.home < |p.out| && it in p.out[it.home] && it in p.chunks && old(it.clsid) == it.home
    ensures p.members <= p.ready
    ensures old(ReadyOk(it, it in p.members, p.out[it.home][it], p.casId, p.clock))
  {
  }

  /** The LRU lists look only at next, prev and realtime. */
  twostate lemma QueuesSee(q: LruQueues)
    requires old(q.Valid()) && q.lists == old(q.lists) && q.heads == old(q.heads) && q.tails == old(q.tails)
    requires q.sizes == old(q.sizes)
    requires forall c, i {:trigger q.lists[c][i]} :: 0 <= c < |q.lists| && 0 <= i < |q.lists[c]| ==>
               var x := q.lists[c][i]; x.next == old(x.next) && x.prev == old(x.prev) && x.realtime == old(x.realtime)
    ensures q.Valid()
  {
    hide EndsOk;
    forall c | 0 <= c < |q.lists| ensures Queue(q.lists[c]) {
      assert old(Queue(q.lists[c]));
    }
  }

  /** The index looks only at hNext and key. */
  twostate lemma TableSees(t: HashTable)
    requires old(t.Valid()) && t.buckets == old(t.buckets) && t.chains == old(t.chains) && t.keyOf == old(t.keyOf)
    requires t.hashitems == old(t.hashitems)
    requires forall b, i {:trigger t.chains[b][i]} ::
                0 <= b < |t.chains| && 0 <= i < |t.chains[b]| ==> t.chains[b][i].hNext == old(t.chains[b][i].hNext)
    requires forall x {:trigger x in t.keyOf} :: x in t.keyOf ==> x.key == old(x.key)
    ensures t.Valid()
  {
    hide ChainsOk;
    forall b | 0 <= b < |t.chains| ensures Chain(t.chains[b]) {
      assert old(Chain(t.chains[b]));
    }
  }

  /** The allocator looks only at the chunks on its free lists. */
  twostate lemma SlabSees(s: Slab)
    requires old(s.Valid()) && unchanged(s)
    requires forall c, i {:trigger s.free[c][i]} ::
                0 <= c < |s.free| && 0 <= i < |s.free[c]| ==> unchanged(s.free[c][i])
    ensures s.Valid()
  {
    hide TableOk, MemoryOk, GoodTable;
    forall c | 0 <= c < |s.free| ensures FreeList(s.free[c]) {
      assert old(FreeList(s.free[c]));
      assert forall i :: 0 <= i < |s.free[c]| ==> unchanged(s.free[c][i]);
    }
  }

  ghost function Freed(p: Picture, it: BaseItem): Picture
    requires it.home < |p.out|
  {
    p.(ready := p.ready - {it}, out := p.out[it.home := p.out[it.home] - {it}])
  }

  lemma FreedCross(p: Picture, it: BaseItem)
    requires Cross(p) && it in p.ready && it !in p.members
    ensures it.home < |p.out| && Cross(Freed(p, it)) && Change(p, Freed(p, it), it).Local()
  {
  }

  /** A ready item is on no free list. */
  lemma ReadyApart(slab: Slab, p: Picture, it: BaseItem)
    requires slab.Valid() && Cross(p) && p.out == slab.out && it in p.ready
    ensures forall c, i {:trigger slab.free[c][i]} ::
                0 <= c < |slab.free| && 0 <= i < |slab.free[c]| ==> slab.free[c][i] != it
  {
    HandedApart(slab, it);
  }
}
