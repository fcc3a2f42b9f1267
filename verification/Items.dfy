/** The item node that the slab free lists, the LRU lists and the hash chains share. */
module Items {
  import opened Layout

  class BaseItem {
    /** The address of the chunk: its class, its page within the class and its slot within the page. */
    const home: nat
    const page: nat
    const slot: nat

    var next: BaseItem?       // free list or LRU list
    var prev: BaseItem?
    var hNext: BaseItem?      // hash chain
    var cas: nat
    var realtime: nat
    var exptime: nat
    var refcount: nat
    var flag: ItemFlag
    var clsid: nat
    var key: Key              // nkey is |key|
    var value: Blob           // nbytes is |value|

    ghost var handles: nat    // references still held: by clients, or for the moment by an operation
    ghost var leaks: nat      // references clients dropped without do_item_remove

    /** A chunk of a page just cleared by memset. */
    constructor (home: nat, page: nat, slot: nat)
      ensures this.home == home && this.page == page && this.slot == slot
      ensures clsid == 0 && flag == CLEAN && refcount == 0 && handles == 0 && leaks == 0
    {
      this.home, this.page, this.slot := home, page, slot;
      next, prev, hNext := null, null, null;
      cas, realtime, exptime, refcount, clsid := 0, 0, 0, 0, 0;
      flag := CLEAN;
      key, value := [], [];
      handles, leaks := 0, 0;
    }
  }

  ghost predicate Distinct<T>(s: seq<T>) {
    forall i, j :: 0 <= i < j < |s| ==> s[i] != s[j]
  }

  /** A proper doubly linked list: both pointer fields agree with the sequence, with null at both ends. */
  ghost predicate Linked(s: seq<BaseItem>)
    reads s
  {
    && Distinct(s)
    && (forall i {:trigger s[i].next} :: 0 <= i < |s| ==> s[i].next == if i + 1 < |s| then s[i + 1] else null)
    && (forall i {:trigger s[i].prev} :: 0 <= i < |s| ==> s[i].prev == if i == 0 then null else s[i - 1])
  }

  ghost function First(s: seq<BaseItem>): BaseItem? { if s == [] then null else s[0] }

  ghost function Last(s: seq<BaseItem>): BaseItem? { if s == [] then null else s[|s| - 1] }

  // ---------- sums over finite maps ----------

  ghost function Sum<T>(m: map<T, nat>): nat {
    if m == map[] then 0
    else
      var k :| k in m;
      m[k] + Sum(m - {k})
  }

  /** A sum can be taken apart at any key. */
  lemma {:induction false} SumRemove<T>(m: map<T, nat>, k: T)
    requires k in m
    ensures Sum(m) == m[k] + Sum(m - {k})
    decreases |m|
  {
    var k0 :| k0 in m && Sum(m) == m[k0] + Sum(m - {k0});
    if k0 != k {
      SumRemove(m - {k0}, k);
      SumRemove(m - {k}, k0);
      assert m - {k0} - {k} == m - {k} - {k0};
    }
  }

  lemma SumInsert<T>(m: map<T, nat>, k: T, v: nat)
    requires k !in m
    ensures Sum(m[k := v]) == Sum(m) + v
  {
    SumRemove(m[k := v], k);
    assert m[k := v] - {k} == m;
  }
}
