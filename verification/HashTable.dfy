/** The chained hash index over items: buckets of singly linked h_next chains. */
module HashIndex {
  import opened Layout
  import opened Items

  /** A proper null-terminated h_next chain. */
  ghost predicate Chain(s: seq<BaseItem>)
    reads s
  {
    && Distinct(s)
    && forall i {:trigger s[i].hNext} :: 0 <= i < |s| ==> s[i].hNext == if i + 1 < |s| then s[i + 1] else null
  }

  ghost predicate Injective(keyOf: map<BaseItem, Key>) {
    forall x, y :: x in keyOf && y in keyOf && keyOf[x] == keyOf[y] ==> x == y
  }

  /** The chains hold exactly the indexed items, each in the bucket of its key, and no two of them share a key. */
  ghost predicate ChainsOk(
      bucketOf: Key -> nat, buckets: seq<BaseItem?>, chains: seq<seq<BaseItem>>, keyOf: map<BaseItem, Key>) {
    && |buckets| == |chains|
    && (forall k :: bucketOf(k) < |chains|)
    && (forall b {:trigger buckets[b]} {:trigger chains[b]} :: 0 <= b < |chains| ==> buckets[b] == First(chains[b]))
    && (forall b {:trigger chains[b]} :: 0 <= b < |chains| ==>
         forall x :: x in chains[b] ==> x in keyOf && bucketOf(keyOf[x]) == b)
    && (forall x {:trigger x in keyOf} :: x in keyOf ==> x in chains[bucketOf(keyOf[x])])
    && Injective(keyOf)
  }

  ghost function Drop<T>(s: seq<T>, k: nat): seq<T>
    requires k < |s|
  {
    s[..k] + s[k + 1..]
  }

  ghost function Insert(keyOf: map<BaseItem, Key>, x: BaseItem, k: Key): map<BaseItem, Key> { keyOf[x := k] }

  lemma Inserted(
      bucketOf: Key -> nat, buckets: seq<BaseItem?>, chains: seq<seq<BaseItem>>, keyOf: map<BaseItem, Key>,
      x: BaseItem, k: Key)
    requires ChainsOk(bucketOf, buckets, chains, keyOf)
    requires x !in keyOf && forall y :: y in keyOf ==> keyOf[y] != k
    ensures var b := bucketOf(k);
            && b < |chains| == |buckets| && x !in chains[b]
            && ChainsOk(bucketOf, buckets[b := x], chains[b := [x] + chains[b]], Insert(keyOf, x, k))
  {
    var b := bucketOf(k);
    assert forall y :: y in chains[b] ==> y in [x] + chains[b];
  }

  lemma DropMembers<T>(s: seq<T>, k: nat)
    requires k < |s| && Distinct(s)
    ensures Distinct(Drop(s, k))
    ensures forall x {:trigger x in Drop(s, k)} {:trigger x in s} :: x in Drop(s, k) <==> x in s && x != s[k]
  {
    var d := Drop(s, k);
    forall x | x in s && x != s[k] ensures x in d {
      var i :| 0 <= i < |s| && s[i] == x;
      assert x == d[if i < k then i else i - 1];
    }
  }

  lemma Deleted(
      bucketOf: Key -> nat, buckets: seq<BaseItem?>, chains: seq<seq<BaseItem>>, keyOf: map<BaseItem, Key>,
      b: nat, i: nat)
    requires ChainsOk(bucketOf, buckets, chains, keyOf)
    requires b < |chains| && i < |chains[b]| && Distinct(chains[b])
    ensures ChainsOk(bucketOf, buckets[b := First(Drop(chains[b], i))], chains[b := Drop(chains[b], i)],
              keyOf - {chains[b][i]})
  {
    hide First;
    var x := chains[b][i];
    var rest := keyOf - {x};
    assert x in chains[b];
    DropMembers(chains[b], i);
    var after := chains[b := Drop(chains[b], i)];
    forall c | 0 <= c < |chains| ensures forall y :: y in after[c] ==> y in rest && bucketOf(rest[y]) == c {
      if c != b {
        assert after[c] == chains[c] && x !in chains[c];
      }
    }
    forall y | y in rest ensures y in after[bucketOf(rest[y])] {
      assert y in chains[bucketOf(keyOf[y])] && y != x;
    }
  }

  lemma OneLess(keyOf: map<BaseItem, Key>, x: BaseItem)
    requires x in keyOf
    ensures |keyOf - {x}| == |keyOf| - 1
  {
    assert keyOf.Keys == (keyOf - {x}).Keys + {x};
  }

  /** The position of the first node with the key, or the length of the chain. */
  ghost predicate FirstWithKey(s: seq<BaseItem>, key: Key, at: nat)
    reads s
  {
    at <= |s| && (forall j :: 0 <= j < at ==> s[j].key != key) && (at < |s| ==> s[at].key == key)
  }

  /** The walk of a delete: from node number `from` to the first node with the key, keeping its predecessor. */
  method Walk(p: BaseItem?, q: BaseItem?, key: Key, ghost s: seq<BaseItem>, ghost from: nat)
    returns (before: BaseItem?, it: BaseItem?, ghost at: nat)
    requires Chain(s) && from <= |s| && q == (if from < |s| then s[from] else null)
    requires p == if from == 0 then null else s[from - 1]
    ensures from <= at <= |s| && it == (if at < |s| then s[at] else null)
    ensures before == if at == 0 then null else s[at - 1]
    ensures forall j :: from <= j < at ==> s[j].key != key
    ensures it != null ==> it.key == key
  {
    before, it, at := p, q, from;
    while it != null && it.key != key
      invariant from <= at <= |s| && it == (if at < |s| then s[at] else null)
      invariant before == if at == 0 then null else s[at - 1]
      invariant forall j :: from <= j < at ==> s[j].key != key
      decreases |s| - at
    {
      before := it;
      it := it.hNext;
      at := at + 1;
    }
  }

  lemma ChainHead(s: seq<BaseItem>)
    requires Chain(s)
    ensures Chain([]) && (s != [] ==> s[0].hNext == if |s| > 1 then s[1] else null)
  {
  }

  /** The middle of a delete: one node leaves the chain, its predecessor (if any) skips it. */
  method SpliceOut(before: BaseItem?, it: BaseItem, ghost s: seq<BaseItem>, ghost at: nat) returns (nxt: BaseItem?)
    requires Chain(s) && at < |s| && it == s[at] && before == if at == 0 then null else s[at - 1]
    modifies s`hNext
    ensures Chain(Drop(s, at)) && (at == 0 ==> nxt == First(Drop(s, at)))
    ensures at > 0 ==> First(Drop(s, at)) == s[0]
  {
    ghost var d := Drop(s, at);
    DropMembers(s, at);
    assert forall i :: 0 <= i < at ==> d[i] == s[i];
    assert forall i :: at <= i < |d| ==> d[i] == s[i + 1];
    nxt := it.hNext;
    it.hNext := null;
    if before != null { before.hNext := nxt; }
  }

  /** What a delete should leave of a chain, and of the item count. */
  ghost function DeletedOne<T>(s: seq<T>, at: nat): seq<T> { if at < |s| then Drop(s, at) else s }

  /** What hash_delete leaves as written. */
  ghost function DeletedAsWritten<T>(s: seq<T>, at: nat): seq<T> { if at == 0 then [] else DeletedOne(s, at) }

  ghost function CountDown<T>(s: seq<T>, at: nat, n: int): int { if at < |s| then n - 1 else n }

  ghost function CountAsWritten<T>(s: seq<T>, at: nat, n: int): int { if at == 0 then n else CountDown(s, at, n) }

  lemma BucketInRange(
      bucketOf: Key -> nat, buckets: seq<BaseItem?>, chains: seq<seq<BaseItem>>, keyOf: map<BaseItem, Key>, key: Key)
    requires ChainsOk(bucketOf, buckets, chains, keyOf)
    ensures bucketOf(key) < |chains| == |buckets|
    ensures (forall x :: x in chains[bucketOf(key)] ==> keyOf[x] != key) ==> forall x :: x in keyOf ==> keyOf[x] != key
  {
  }

  /** No node is on two chains. */
  lemma OthersApart(
      bucketOf: Key -> nat, buckets: seq<BaseItem?>, chains: seq<seq<BaseItem>>, keyOf: map<BaseItem, Key>, b: nat)
    requires ChainsOk(bucketOf, buckets, chains, keyOf) && b < |chains|
    ensures forall c, x :: 0 <= c < |chains| && c != b && x in chains[c] ==> x !in chains[b]
  {
  }

  lemma ChainAt(
      bucketOf: Key -> nat, buckets: seq<BaseItem?>, chains: seq<seq<BaseItem>>, keyOf: map<BaseItem, Key>, b: nat)
    requires ChainsOk(bucketOf, buckets, chains, keyOf) && b < |chains|
    ensures |buckets| == |chains| && buckets[b] == First(chains[b])
    ensures forall x :: x in chains[b] ==> x in keyOf && bucketOf(keyOf[x]) == b
    ensures Injective(keyOf)
  {
  }

  class HashTable {
    /** The bucket, and with it the lock, of a key: its hash under the mask. */
    const bucketOf: Key -> nat
    var buckets: seq<BaseItem?>
    var hashitems: nat
    ghost var chains: seq<seq<BaseItem>>
    ghost var keyOf: map<BaseItem, Key>

    ghost predicate Shape()
      reads this
    {
      ChainsOk(bucketOf, buckets, chains, keyOf) && hashitems == |keyOf|
    }

    ghost predicate Valid()
      reads this, keyOf.Keys
    {
      && Shape()
      && (forall b {:trigger chains[b]} :: 0 <= b < |chains| ==> Chain(chains[b]))
      && (forall x {:trigger x in keyOf} :: x in keyOf ==> x.key == keyOf[x])
    }

    constructor (bucketOf: Key -> nat, size: nat)
      requires forall k :: bucketOf(k) < size
      ensures Valid() && this.bucketOf == bucketOf && keyOf == map[] && hashitems == 0
      ensures |buckets| == |chains| == size && forall b {:trigger chains[b]} :: 0 <= b < size ==> chains[b] == []
    {
      this.bucketOf := bucketOf;
      buckets := seq(size, _ => null);
      hashitems := 0;
      chains := seq(size, _ => []);
      keyOf := map[];
    }

    /** hash_find returns the one indexed item with this key, or null when no item has it. */
    method HashFind(key: Key) returns (ret: BaseItem?)
      requires Valid()
      ensures ret != null ==> ret in keyOf && keyOf[ret] == key
      ensures ret == null ==> forall x :: x in keyOf ==> keyOf[x] != key
    {
      ghost var s := chains[bucketOf(key)];
      assert Chain(s);
      var it := buckets[bucketOf(key)];
      ghost var i := 0;
      while it != null
        invariant i <= |s| && it == (if i < |s| then s[i] else null)
        invariant forall j :: 0 <= j < i ==> keyOf[s[j]] != key
        decreases |s| - i
      {
        assert s[i] in s;
        if it.key == key { return it; }
        it := it.hNext;
        i := i + 1;
      }
      return null;
    }

    /** hash_insert puts an item at the head of its bucket. */
    method HashInsert(it: BaseItem)
      requires Valid() && it !in keyOf
      requires forall x :: x in keyOf ==> keyOf[x] != it.key
      modifies this, it`hNext
      ensures Valid() && keyOf == Insert(old(keyOf), it, it.key)
      ensures var b := bucketOf(it.key);
              chains == old(chains)[b := [it] + old(chains[b])] && hashitems == old(hashitems) + 1
    {
      hide ChainsOk;
      Inserted(bucketOf, buckets, chains, keyOf, it, it.key);
      ChainAt(bucketOf, buckets, chains, keyOf, bucketOf(it.key));
      var b := bucketOf(it.key);
      assert Chain(chains[b]);
      it.hNext := buckets[b];
      buckets := buckets[b := it];
      hashitems := hashitems + 1;
      chains := chains[b := [it] + chains[b]];
      keyOf := Insert(keyOf, it, it.key);
      forall c | 0 <= c < |chains| && c != b ensures Chain(chains[c]) {
        assert old(Chain(chains[c]));
        ChainAt(bucketOf, old(buckets), old(chains), old(keyOf), c);
        forall i | 0 <= i < |chains[c]| ensures unchanged(chains[c][i]) {
          assert chains[c][i] in chains[c];
        }
      }
    }

    lemma NodesApart(b: nat, at: nat)
      requires Valid() && b < |chains| && at < |chains[b]|
      ensures Distinct(chains[b]) && chains[b][at] in keyOf
    {
      assert Chain(chains[b]) && chains[b][at] in chains[b];
    }

    /** The pointers of the chain, and no others, close over the node. */
    method CutChain(b: nat, before: BaseItem?, it: BaseItem, ghost at: nat)
      requires Valid() && b < |chains| && at < |chains[b]| && it == chains[b][at]
      requires before == if at == 0 then null else chains[b][at - 1]
      modifies this`buckets, chains[b]`hNext
      ensures |old(buckets)| == |chains| && buckets == old(buckets)[b := First(Drop(chains[b], at))]
      ensures forall c {:trigger chains[c]} :: 0 <= c < |chains| ==>
                Chain(if c == b then Drop(chains[b], at) else chains[c])
    {
      hide ChainsOk, Drop, Injective, Distinct;
      ChainAt(bucketOf, buckets, chains, keyOf, b);
      assert Chain(chains[b]);
      OthersApart(bucketOf, buckets, chains, keyOf, b);
      var nxt := SpliceOut(before, it, chains[b], at);
      if before == null { buckets := buckets[b := nxt]; }
      assert buckets == old(buckets)[b := First(Drop(chains[b], at))];
      forall c {:trigger chains[c]} | 0 <= c < |chains| && c != b ensures Chain(chains[c]) {
        assert old(Chain(chains[c]));
        forall i | 0 <= i < |chains[c]| ensures unchanged(chains[c][i]) {
          assert chains[c][i] in chains[c] && chains[c][i] !in chains[b];
        }
      }
    }

    /** The last lines of hash_delete: the pointer that led to the node leads past it. */
    method CutNode(b: nat, before: BaseItem?, it: BaseItem, ghost at: nat)
      requires Valid() && b < |chains| && at < |chains[b]| && it == chains[b][at]
      requires before == if at == 0 then null else chains[b][at - 1]
      modifies this, chains[b]`hNext
      ensures Valid()
      ensures keyOf == old(keyOf) - {it} && hashitems == old(hashitems) - 1
      ensures chains == old(chains)[b := Drop(old(chains[b]), at)]
    {
      hide ChainsOk, Drop, Injective, Distinct, Chain;
      ChainAt(bucketOf, buckets, chains, keyOf, b);
      ghost var s := chains[b];
      NodesApart(b, at);
      Deleted(bucketOf, buckets, chains, keyOf, b, at);
      OneLess(keyOf, it);
      CutChain(b, before, it, at);
      hashitems := hashitems - 1;
      chains := chains[b := Drop(s, at)];
      keyOf := keyOf - {it};
    }

    /**
     * hash_delete, with the pointer to the pointer written out: `before` owns the pointer that leads to `it`, or is
     * null when that pointer is the bucket itself. The first node with the key is taken out and the order of the
     * others stays. (As written, a match at the head takes another path: see HashDeleteAsWritten.)
     */
    method HashDelete(key: Key) returns (ghost at: nat)
      requires Valid()
      modifies this, chains[bucketOf(key)]`hNext
      ensures Valid()
      ensures at <= |old(chains[bucketOf(key)])|
      ensures at < |old(chains[bucketOf(key)])| ==>
                var x := old(chains[bucketOf(key)])[at];
                && x in old(keyOf) && old(keyOf)[x] == key
                && keyOf == old(keyOf) - {x} && hashitems == old(hashitems) - 1
                && chains == old(chains)[bucketOf(key) := Drop(old(chains[bucketOf(key)]), at)]
      ensures at == |old(chains[bucketOf(key)])| ==>
                && (forall x :: x in old(keyOf) ==> old(keyOf)[x] != key)
                && keyOf == old(keyOf) && chains == old(chains) && hashitems == old(hashitems)
    {
      hide ChainsOk;
      ghost var b := bucketOf(key);
      BucketInRange(bucketOf, buckets, chains, keyOf, key);
      ChainAt(bucketOf, buckets, chains, keyOf, b);
      ghost var s := chains[b];
      assert Chain(s);
      var before: BaseItem?, it: BaseItem?;
      before, it, at := Walk(null, buckets[bucketOf(key)], key, s, 0);
      assert forall j :: 0 <= j < at ==> s[j] in s && keyOf[s[j]] != key;
      if it != null {
        assert s[at] in s && s[at] in keyOf;
        CutNode(bucketOf(key), before, it, at);
      } else {
        assert forall x :: x in s ==> keyOf[x] != key;
      }
    }

    /**
     * hash_delete as written: when the bucket is empty or its head has the key, the whole bucket is cleared and
     * hashitems stays; otherwise the first later node with the key is taken out.
     */
    method HashDeleteAsWritten(key: Key) returns (ghost at: nat)
      requires Valid()
      modifies this`buckets, this`hashitems, this`chains, chains[bucketOf(key)]`hNext
      ensures bucketOf(key) < |chains| == |old(chains)| && chains == old(chains)[bucketOf(key) := chains[bucketOf(key)]]
      ensures FirstWithKey(old(chains[bucketOf(key)]), key, at)
      ensures var s := chains[bucketOf(key)];
              && Chain(s) && buckets == old(buckets)[bucketOf(key) := First(s)]
              && s == DeletedAsWritten(old(chains[bucketOf(key)]), at)
      ensures hashitems == CountAsWritten(old(chains[bucketOf(key)]), at, old(hashitems))
    {
      hide ChainsOk, Injective, Drop, Chain;
      var b := bucketOf(key);
      BucketInRange(bucketOf, buckets, chains, keyOf, key);
      ChainAt(bucketOf, buckets, chains, keyOf, b);
      ghost var s := chains[b];
      assert Chain(s);
      ChainHead(s);
      var p := buckets[b];
      if p == null || p.key == key {
        buckets := buckets[b := null];
        chains := chains[b := []];
        return 0;
      }
      var before: BaseItem?, it: BaseItem?;
      before, it, at := Walk(p, p.hNext, key, s, 1);
      if it != null {
        assert s[at] in s && s[at] in keyOf.Keys;
        hashitems := hashitems - 1;
        var nxt := SpliceOut(before, it, s, at);
        chains := chains[b := Drop(s, at)];
      }
      assert buckets == old(buckets)[b := First(chains[b])];
    }
  }

  // ---------- deletion seen on one chain, with the first match at position `at` ----------

  lemma SameSize(t: HashTable)
    requires t.Valid()
    ensures |t.buckets| == |t.chains|
  {
  }

  lemma InsertedOnly(x: BaseItem, key: Key)
    ensures forall y :: y in Insert(map[], x, key) <==> y == x
    ensures Insert(map[], x, key)[x] == key
  {
  }

  /** An index with two keys in its one bucket. */
  method TwoInOneBucket() returns (t: HashTable, other: BaseItem, head: BaseItem)
    ensures fresh(t) && fresh(other) && fresh(head) && t.Valid() && t.chains == [[head, other]] && |t.buckets| == 1
    ensures t.keyOf == Insert(Insert(map[], other, [1]), head, [2]) && other.key == [1] && head.key == [2]
    ensures other != head
    ensures t.hashitems == 2 && t.bucketOf([1]) == t.bucketOf([2]) == 0
  {
    hide ChainsOk, HashTable.Valid, Insert;
    t := new HashTable((k: Key) => 0, 1);
    other := new BaseItem(1, 0, 0);
    head := new BaseItem(1, 0, 1);
    other.key, head.key := [1], [2];
    t.HashInsert(other);
    assert t.chains[0] == [other];
    InsertedOnly(other, [1]);
    t.HashInsert(head);
    assert t.chains[0] == [head, other];
    SameSize(t);
  }

  /** Deleting the key at the head of that bucket loses the other, and the count stays. */
  method DeleteAsWrittenLosesAKey() returns (t: HashTable, other: BaseItem)
    ensures fresh(t) && fresh(other) && other.key == [1] && t.bucketOf([1]) == 0
    ensures t.chains == [[]] && t.buckets == [null] && t.hashitems == 2
  {
    hide ChainsOk, HashTable.Valid, Insert, DeletedOne;
    var head: BaseItem;
    t, other, head := TwoInOneBucket();
    ghost var s := t.chains[0];
    ghost var at := t.HashDeleteAsWritten([2]);
    assert s[0].key == [2] && FirstWithKey(s, [2], at);
    assert t.chains[0] == [] && t.buckets[0] == null;
  }

  /**
   * hash_delete as written leaves the right chain exactly when the key is not at the head of a longer chain, and the
   * right chain and the right count exactly when the key is not at the head at all.
   */
  lemma DeleteAsWrittenIsRightIff<T>(s: seq<T>, at: nat, n: int)
    requires at <= |s|
    ensures DeletedAsWritten(s, at) == DeletedOne(s, at) <==> !(at == 0 && |s| > 1)
    ensures DeletedAsWritten(s, at) == DeletedOne(s, at) && CountAsWritten(s, at, n) == CountDown(s, at, n)
       <==> !(at == 0 && |s| > 0)
  {
    if at == 0 && |s| > 0 {
      assert |DeletedOne(s, at)| == |s| - 1;
    }
  }
}
