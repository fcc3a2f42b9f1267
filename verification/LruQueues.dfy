/** The per-class LRU lists: newest item at the head, doubly linked through the same fields as the free lists. */
module Lru {
  import opened Layout
  import opened Items
  import opened HashIndex

  ghost predicate NewestFirst(s: seq<BaseItem>)
    reads s
  {
    forall i, j :: 0 <= i < j < |s| ==> s[i].realtime >= s[j].realtime
  }

  /** An LRU list: doubly linked and sorted by the time of the last link or bump. */
  ghost predicate Queue(s: seq<BaseItem>)
    reads s
  {
    Linked(s) && NewestFirst(s)
  }

  /** Heads, tails and sizes are those of the lists, and each list holds items of its own class only. */
  ghost predicate EndsOk(heads: seq<BaseItem?>, tails: seq<BaseItem?>, sizes: seq<nat>, lists: seq<seq<BaseItem>>) {
    && |heads| == |tails| == |sizes| == |lists| == POWER_LARGEST
    && forall c {:trigger lists[c]} {:trigger heads[c]} {:trigger tails[c]} {:trigger sizes[c]} :: 0 <= c < |lists| ==>
         && heads[c] == First(lists[c]) && tails[c] == Last(lists[c]) && sizes[c] == |lists[c]|
         && forall x :: x in lists[c] ==> x.home == c
  }

  lemma EndsAt(heads: seq<BaseItem?>, tails: seq<BaseItem?>, sizes: seq<nat>, lists: seq<seq<BaseItem>>, c: nat)
    requires EndsOk(heads, tails, sizes, lists) && c < POWER_LARGEST
    ensures |heads| == |tails| == |sizes| == |lists| == POWER_LARGEST
    ensures heads[c] == First(lists[c]) && tails[c] == Last(lists[c]) && sizes[c] == |lists[c]|
    ensures forall x :: x in lists[c] ==> x.home == c
  {
  }

  lemma EndsKept(
      heads: seq<BaseItem?>, tails: seq<BaseItem?>, sizes: seq<nat>, lists: seq<seq<BaseItem>>, c: nat,
      s: seq<BaseItem>)
    requires EndsOk(heads, tails, sizes, lists) && c < POWER_LARGEST
    requires forall x :: x in s ==> x.home == c
    ensures EndsOk(heads[c := First(s)], tails[c := Last(s)], sizes[c := |s|], lists[c := s])
  {
  }

  lemma DropSorted(s: seq<BaseItem>, k: nat)
    requires NewestFirst(s) && k < |s|
    ensures NewestFirst(Drop(s, k))
  {
    var d := Drop(s, k);
    forall i, j | 0 <= i < j < |d| ensures d[i].realtime >= d[j].realtime {
      assert d[i] == s[if i < k then i else i + 1] && d[j] == s[if j < k then j else j + 1];
    }
  }

  /** Pointer writes do not disturb the order by time. */
  twostate lemma TimesKept(s: seq<BaseItem>)
    requires old(NewestFirst(s))
    requires forall i {:trigger s[i]} :: 0 <= i < |s| ==> s[i].realtime == old(s[i].realtime)
    ensures NewestFirst(s)
  {
  }

  /** Putting the newest item in front. */
  method HookHead(it: BaseItem, head: BaseItem?, ghost s: seq<BaseItem>)
    requires Queue(s) && head == First(s) && it !in s
    requires s != [] ==> it.realtime >= s[0].realtime
    modifies it`next, it`prev, s`prev
    ensures Queue([it] + s)
  {
    assert NewestFirst([it] + s);
    hide NewestFirst;
    it.prev := null;
    it.next := head;
    if it.next != null {
      it.next.prev := it;
    }
    assert Linked([it] + s);
    TimesKept([it] + s);
  }

  /** Node i of s, or null past either end. */
  ghost function At(s: seq<BaseItem>, i: int): BaseItem? { if 0 <= i < |s| then s[i] else null }

  /** A list in which the neighbours of node k skip it is linked without node k. */
  lemma SkippedIsLinked(s: seq<BaseItem>, k: nat)
    requires k < |s| && Distinct(s)
    requires forall i {:trigger s[i].next} :: 0 <= i < |s| ==> s[i].next == At(s, if i + 1 == k then k + 1 else i + 1)
    requires forall i {:trigger s[i].prev} :: 0 <= i < |s| ==> s[i].prev == At(s, if i == k + 1 then k - 1 else i - 1)
    ensures Linked(Drop(s, k))
  {
    var d := Drop(s, k);
    DropMembers(s, k);
    forall i {:trigger d[i].next} | 0 <= i < |d| ensures d[i].next == if i + 1 < |d| then d[i + 1] else null {
      var j := if i < k then i else i + 1;
      assert d[i] == s[j];
    }
    forall i {:trigger d[i].prev} | 0 <= i < |d| ensures d[i].prev == if i == 0 then null else d[i - 1] {
      var j := if i < k then i else i + 1;
      assert d[i] == s[j];
    }
  }

  lemma DropEnds(s: seq<BaseItem>, k: nat)
    requires k < |s| && Distinct(s)
    ensures First(Drop(s, k)) == if First(s) == s[k] then At(s, k + 1) else First(s)
    ensures Last(Drop(s, k)) == if Last(s) == s[k] then At(s, k - 1) else Last(s)
    ensures |Drop(s, k)| == |s| - 1
    ensures forall x :: x in Drop(s, k) ==> x in s
  {
    DropMembers(s, k);
  }

  /** The neighbours of a node join hands; its own pointers stay. */
  method JoinNeighbours(it: BaseItem, ghost s: seq<BaseItem>, ghost k: nat)
    requires Queue(s) && k < |s| && s[k] == it
    modifies s`next, s`prev
    ensures Queue(Drop(s, k)) && it.next == old(it.next) && it.prev == old(it.prev)
  {
    DropSorted(s, k);
    hide NewestFirst, Drop;
    assert it.next == At(s, k + 1) && it.prev == At(s, k - 1);
    if it.next != null {
      it.next.prev := it.prev;
    }
    if it.prev != null {
      it.prev.next := it.next;
    }
    SkippedIsLinked(s, k);
    TimesKept(Drop(s, k));
  }

  function MoveEnd(ends: seq<BaseItem?>, c: nat, move: bool, to: BaseItem?): seq<BaseItem?>
    requires c < |ends|
  {
    if move then ends[c := to] else ends
  }

  class LruQueues {
    var heads: seq<BaseItem?>
    var tails: seq<BaseItem?>
    var sizes: seq<nat>
    ghost var lists: seq<seq<BaseItem>>   // newest first

    ghost predicate Shape()
      reads this
    {
      EndsOk(heads, tails, sizes, lists)
    }

    /** All nodes of all lists. */
    ghost function Nodes(): set<BaseItem>
      reads this
    {
      set c, i | 0 <= c < |lists| && 0 <= i < |lists[c]| :: lists[c][i]
    }

    ghost predicate Valid()
      reads this, Nodes()
    {
      Shape() && forall c {:trigger lists[c]} :: 0 <= c < |lists| ==> Queue(lists[c])
    }

    constructor ()
      ensures Valid() && |lists| == POWER_LARGEST && forall c :: 0 <= c < |lists| ==> lists[c] == []
    {
      heads := seq(POWER_LARGEST, _ => null);
      tails := seq(POWER_LARGEST, _ => null);
      sizes := seq(POWER_LARGEST, _ => 0);
      lists := seq(POWER_LARGEST, _ => []);
    }

    /**
     * item_link_q: the item becomes the head of the list of its class. A slabbed item is refused; the other guards of
     * the source (class out of range, item already head, only one end set) never hold in a valid state.
     */
    method ItemLinkQ(it: BaseItem)
      requires Valid() && it.clsid == it.home < POWER_LARGEST && it !in lists[it.clsid]
      requires lists[it.clsid] != [] ==> it.realtime >= lists[it.clsid][0].realtime
      modifies this, it`next, it`prev, lists[it.clsid]`prev
      ensures Valid()
      ensures lists == if it.flag.slabbed then old(lists) else old(lists)[it.clsid := [it] + old(lists[it.clsid])]
    {
      hide EndsOk;
      ghost var c := it.clsid;
      EndsAt(heads, tails, sizes, lists, c);
      assert Queue(lists[c]);
      if it.clsid > POWER_LARGEST || it.flag.slabbed { return; }
      var head := heads[it.clsid];
      var tail := tails[it.clsid];
      if it == head || !((head != null && tail != null) || (head == null && tail == null)) {
        return;
      }
      ghost var s := [it] + lists[c];
      EndsKept(heads, tails, sizes, lists, c, s);
      HookHead(it, head, lists[c]);
      forall d | 0 <= d < |lists| && d != c ensures Queue(lists[d]) {
        EndsAt(heads, tails, sizes, lists, d);
        assert old(Queue(lists[d]));
        forall i | 0 <= i < |lists[d]| ensures unchanged(lists[d][i]) {
          assert lists[d][i] in lists[d];
        }
      }
      heads := heads[it.clsid := it];
      if tail == null { tails := tails[it.clsid := it]; }
      sizes := sizes[it.clsid := sizes[it.clsid] + 1];
      lists := lists[c := s];
      assert tails == old(tails)[c := Last(s)];
    }

    /**
     * item_unlink_q: the item leaves the list of its class; a head or tail moves on to its neighbour. (As written the
     * two guards are inverted and neither end moves: see ItemUnlinkQAsWritten.)
     */
    method ItemUnlinkQ(it: BaseItem, ghost k: nat)
      requires Valid() && it.clsid == it.home < POWER_LARGEST
      requires k < |lists[it.clsid]| && lists[it.clsid][k] == it
      modifies this, lists[it.clsid]`next, lists[it.clsid]`prev
      ensures Valid() && it.next == old(it.next) && it.prev == old(it.prev)
      ensures lists == if it.flag.slabbed then old(lists) else old(lists)[it.clsid := Drop(old(lists[it.clsid]), k)]
    {
      hide EndsOk, Drop, NewestFirst;
      ghost var c := it.clsid;
      EndsAt(heads, tails, sizes, lists, c);
      ghost var s := lists[c];
      assert Queue(s);
      if it.clsid > POWER_LARGEST || it.flag.slabbed { return; }
      DropEnds(s, k);
      EndsKept(heads, tails, sizes, lists, c, Drop(s, k));
      assert it.next == At(s, k + 1) && it.prev == At(s, k - 1);
      var head, tail := heads[it.clsid], tails[it.clsid];
      if head == it { head := it.next; }
      if tail == it { tail := it.prev; }
      JoinNeighbours(it, s, k);
      forall d | 0 <= d < |lists| && d != c ensures Queue(lists[d]) {
        EndsAt(heads, tails, sizes, lists, d);
        assert old(Queue(lists[d]));
        forall i | 0 <= i < |lists[d]| ensures unchanged(lists[d][i]) {
          assert lists[d][i] in lists[d];
        }
      }
      heads := heads[it.clsid := head];
      tails := tails[it.clsid := tail];
      sizes := sizes[it.clsid := sizes[it.clsid] - 1];
      lists := lists[c := Drop(s, k)];
    }

    /**
     * item_unlink_q as written: a head moves only if it has a predecessor and a tail only if it has a successor, which
     * no head or tail has. The neighbours are joined and the size drops, but the two ends are the right ones exactly
     * when the item was strictly inside the list.
     */
    method ItemUnlinkQAsWritten(it: BaseItem, ghost k: nat)
      requires Valid() && it.clsid == it.home < POWER_LARGEST && !it.flag.slabbed
      requires k < |lists[it.clsid]| && lists[it.clsid][k] == it
      modifies this`heads, this`tails, this`sizes, lists[it.clsid]`next, lists[it.clsid]`prev
      ensures |heads| == |tails| == |sizes| == POWER_LARGEST
      ensures heads == old(heads) && tails == old(tails) && sizes[it.clsid] == old(sizes[it.clsid]) - 1
      ensures var rest := Drop(old(lists[it.clsid]), k);
              && Queue(rest)
              && (heads[it.clsid] == First(rest) && tails[it.clsid] == Last(rest) <==> 0 < k < |rest|)
    {
      hide EndsOk;
      ghost var c := it.clsid;
      EndsAt(heads, tails, sizes, lists, c);
      ghost var s := lists[c];
      assert Queue(s);
      heads := MoveEnd(heads, it.clsid, heads[it.clsid] == it && it.prev != null, it.next);
      tails := MoveEnd(tails, it.clsid, tails[it.clsid] == it && it.next != null, it.prev);
      JoinNeighbours(it, s, k);
      sizes := sizes[it.clsid := sizes[it.clsid] - 1];
    }
  }

  /** A list of one item: after the literal unlink, head and tail still lead to the item that has left. */
  method UnlinkAsWrittenKeepsTheEnds() returns (q: LruQueues, it: BaseItem)
    ensures fresh(q) && fresh(it) && |q.heads| == |q.tails| == |q.sizes| == POWER_LARGEST
    ensures q.heads[1] == it == q.tails[1] && q.sizes[1] == 0
  {
    q := new LruQueues();
    it := new BaseItem(1, 0, 0);
    it.clsid := 1;
    EndsAt(q.heads, q.tails, q.sizes, q.lists, 1);
    q.ItemLinkQ(it);
    EndsAt(q.heads, q.tails, q.sizes, q.lists, 1);
    q.ItemUnlinkQAsWritten(it, 0);
  }
}
