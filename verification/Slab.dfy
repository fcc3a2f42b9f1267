/** The slab allocator: pages cut into chunks, one intrusive free list per size class. */
module Slabs {
  import opened Layout
  import opened SlabClasses
  import opened Items

  // ---------- memory accounting on values ----------

  function PageBytes(x: Geometry): nat { x.size * x.perslab }

  /** Bytes in all pages. */
  ghost function Malloced(geo: seq<Geometry>, pages: seq<nat>): nat
    requires |geo| == |pages|
  {
    if geo == [] then 0 else pages[0] * PageBytes(geo[0]) + Malloced(geo[1..], pages[1..])
  }

  /** One page for each class that owns a page. */
  ghost function OnePageEach(geo: seq<Geometry>, pages: seq<nat>): nat
    requires |geo| == |pages|
  {
    if geo == [] then 0 else (if pages[0] > 0 then PageBytes(geo[0]) else 0) + OnePageEach(geo[1..], pages[1..])
  }

  lemma {:induction false} PageAdded(geo: seq<Geometry>, pages: seq<nat>, c: nat)
    requires |geo| == |pages| && c < |geo|
    ensures Malloced(geo, pages[c := pages[c] + 1]) == Malloced(geo, pages) + PageBytes(geo[c])
    ensures OnePageEach(geo, pages[c := pages[c] + 1])
         == OnePageEach(geo, pages) + if pages[c] == 0 then PageBytes(geo[c]) else 0
  {
    var more := pages[c := pages[c] + 1];
    if c == 0 {
      assert more[1..] == pages[1..];
      assert (pages[0] + 1) * PageBytes(geo[0]) == pages[0] * PageBytes(geo[0]) + PageBytes(geo[0]);
    } else {
      assert more[1..] == pages[1..][c - 1 := pages[1..][c - 1] + 1];
      PageAdded(geo[1..], pages[1..], c - 1);
    }
  }

  lemma {:induction false} NoPages(geo: seq<Geometry>, pages: seq<nat>)
    requires |geo| == |pages| && forall c :: 0 <= c < |pages| ==> pages[c] == 0
    ensures Malloced(geo, pages) == 0 && OnePageEach(geo, pages) == 0
  {
    if geo != [] { NoPages(geo[1..], pages[1..]); }
  }

  /** The page list holds 0 or 16 times a power of two pointers. */
  ghost predicate ListSizeOk(n: nat) { n == 0 || exists k: nat :: n == 16 * Pow2(k) }

  lemma ListSizeDoubles(n: nat)
    requires ListSizeOk(n)
    ensures ListSizeOk(if n != 0 then n * 2 else 16)
  {
    if n == 0 {
      assert 16 == 16 * Pow2(0);
    } else {
      var k: nat :| n == 16 * Pow2(k);
      assert n * 2 == 16 * Pow2(k + 1);
    }
  }

  // ---------- one class ----------

  datatype SlabClass = SlabClass(
    size: nat,
    perslab: nat,
    slots: BaseItem?,                  // head of the free list
    slCurr: nat,                       // length of the free list
    slabs: nat,
    slabList: seq<seq<BaseItem>>,      // each page is the row of its chunks
    listSize: nat,
    requested: int)

  ghost predicate InPage(id: nat, slabList: seq<seq<BaseItem>>, x: BaseItem) {
    x.home == id && x.page < |slabList| && x.slot < |slabList[x.page]| && slabList[x.page][x.slot] == x
  }

  /** Free and handed-out chunks are apart, and together they are exactly the slots of the pages, each once. */
  ghost predicate Paged(
      id: nat, perslab: nat, slabList: seq<seq<BaseItem>>, free: seq<BaseItem>, out: map<BaseItem, nat>) {
    && (forall x {:trigger x in free} :: x in free ==> x !in out && InPage(id, slabList, x))
    && (forall x {:trigger x in out} :: x in out ==> InPage(id, slabList, x))
    && (forall p {:trigger slabList[p]} :: 0 <= p < |slabList| ==> |slabList[p]| == perslab)
    && (forall p, s {:trigger slabList[p][s]} :: 0 <= p < |slabList| && 0 <= s < |slabList[p]| ==>
          var x := slabList[p][s]; x.home == id && x.page == p && x.slot == s && (x in free || x in out))
    && |free| + |out| == |slabList| * perslab
  }

  /** A row of chunks whose addresses are the slots of page number `page`. */
  ghost predicate IsRow(row: seq<BaseItem>, id: nat, page: nat) {
    && Distinct(row)
    && forall j {:trigger row[j]} :: 0 <= j < |row| ==> row[j].home == id && row[j].page == page && row[j].slot == j
  }

  /** A row pushed onto a free list chunk by chunk: it lies in front, last chunk first. */
  ghost predicate Pushed(row: seq<BaseItem>, free: seq<BaseItem>, free2: seq<BaseItem>) {
    && |free2| == |row| + |free| && free2[|row|..] == free
    && forall j :: 0 <= j < |row| ==> free2[j] == row[|row| - 1 - j]
  }

  lemma OneMoreTimes(n: nat, p: nat)
    ensures (n + 1) * p == n * p + p
  {
  }

  lemma RowJoins(
      id: nat, perslab: nat, slabList: seq<seq<BaseItem>>, free: seq<BaseItem>, out: map<BaseItem, nat>,
      row: seq<BaseItem>, free2: seq<BaseItem>)
    requires Paged(id, perslab, slabList, free, out) && |row| == perslab && IsRow(row, id, |slabList|)
    requires Pushed(row, free, free2)
    ensures Paged(id, perslab, slabList + [row], free2, out)
  {
    var list2 := slabList + [row];
    forall x | x in free2 ensures x !in out && InPage(id, list2, x) {
      var j :| 0 <= j < |free2| && free2[j] == x;
      if j < |row| {
        assert x == row[|row| - 1 - j];
      } else {
        assert free2[|row|..][j - |row|] == x;
        assert x in free;
      }
    }
    forall p, s | 0 <= p < |list2| && 0 <= s < |list2[p]|
      ensures var x := list2[p][s]; x.home == id && x.page == p && x.slot == s && (x in free2 || x in out)
    {
      var x := list2[p][s];
      if p < |slabList| {
        assert x == slabList[p][s];
        if x in free {
          assert x in free2[|row|..];
        }
      } else {
        assert x == free2[|row| - 1 - s];
      }
    }
    OneMoreTimes(|slabList|, perslab);
  }

  lemma RowMembers(row: seq<BaseItem>, free: seq<BaseItem>, free2: seq<BaseItem>)
    requires Pushed(row, free, free2)
    ensures forall x {:trigger x in free2} {:trigger x in row} {:trigger x in free} ::
                x in free2 <==> x in row || x in free
  {
    assert free2 == free2[..|row|] + free;
    assert forall j :: 0 <= j < |row| ==> row[j] == free2[|row| - 1 - j];
    assert forall x :: x in free2[..|row|] ==> x in row;
    assert forall x :: x in row ==> x in free2[..|row|];
  }

  lemma ChunkTaken(
      id: nat, perslab: nat, slabList: seq<seq<BaseItem>>, free: seq<BaseItem>, out: map<BaseItem, nat>, n: nat)
    requires Paged(id, perslab, slabList, free, out) && Distinct(free) && free != []
    ensures Paged(id, perslab, slabList, free[1..], out[free[0] := n])
  {
    assert free[0] in free;
    forall x | x in free[1..] ensures x in free && x != free[0] {
      var j :| 0 <= j < |free| - 1 && free[1..][j] == x;
      assert free[j + 1] == x;
    }
    assert free == [free[0]] + free[1..];
  }

  lemma ChunkReturned(
      id: nat, perslab: nat, slabList: seq<seq<BaseItem>>, free: seq<BaseItem>, out: map<BaseItem, nat>, x: BaseItem)
    requires Paged(id, perslab, slabList, free, out) && x in out
    ensures Paged(id, perslab, slabList, [x] + free, out - {x})
  {
    assert out.Keys == (out - {x}).Keys + {x};
  }

  /** A chunk no client and no list of the store refers to. */
  ghost predicate Idle(x: BaseItem)
    reads x
  {
    x.clsid == 0 && x.flag.slabbed && !x.flag.linked && x.refcount == 0 && x.handles == 0 && x.leaks == 0
  }

  /** A chunk of a page just cleared. */
  ghost predicate Blank(x: BaseItem)
    reads x
  {
    x.clsid == 0 && x.flag == CLEAN && x.refcount == 0 && x.handles == 0 && x.leaks == 0
  }

  /** The fields of class `id` agree with its free list and with the chunks it has handed out. */
  ghost predicate ClassOk(id: nat, g: Geometry, p: SlabClass, free: seq<BaseItem>, out: map<BaseItem, nat>) {
    && p.size == g.size && p.perslab == g.perslab
    && p.slCurr == |free| && p.slots == First(free) && Distinct(free)
    && |p.slabList| == p.slabs <= p.listSize && ListSizeOk(p.listSize)
    && Paged(id, p.perslab, p.slabList, free, out)
    && p.requested == Sum(out)
  }

  /** A free list is doubly linked and holds only idle chunks. */
  ghost predicate FreeList(free: seq<BaseItem>)
    reads free
  {
    Linked(free) && forall x {:trigger x in free} :: x in free ==> Idle(x)
  }

  // ---------- the allocator ----------

  /** A chunk is handed out with this many bytes charged for it. */
  ghost function Charge(out: map<BaseItem, nat>, x: BaseItem, n: nat): map<BaseItem, nat> { out[x := n] }

  /** Every class agrees with its lists, and the chunks are exactly those on the lists and those handed out. */
  ghost predicate TableOk(
      geo: seq<Geometry>, memBase: seq<SlabClass>, free: seq<seq<BaseItem>>, out: seq<map<BaseItem, nat>>,
      chunks: set<BaseItem>) {
    && |memBase| == |geo| == |free| == |out|
    && (forall c {:trigger memBase[c]} {:trigger free[c]} {:trigger out[c]} :: 0 <= c < |geo| ==>
          && ClassOk(c, geo[c], memBase[c], free[c], out[c])
          && (forall x :: x in free[c] ==> x in chunks)
          && (forall x :: x in out[c] ==> x in chunks))
    && (forall x {:trigger x in chunks} :: x in chunks ==> x.home < |geo| && (x in free[x.home] || x in out[x.home]))
  }

  lemma ClassAt(
      geo: seq<Geometry>, memBase: seq<SlabClass>, free: seq<seq<BaseItem>>, out: seq<map<BaseItem, nat>>,
      chunks: set<BaseItem>, c: nat)
    requires TableOk(geo, memBase, free, out, chunks) && c < |geo|
    ensures |memBase| == |geo| == |free| == |out|
    ensures ClassOk(c, geo[c], memBase[c], free[c], out[c])
    ensures memBase[c].slots == First(free[c]) && memBase[c].slCurr == |free[c]| && Distinct(free[c])
    ensures memBase[c].perslab == geo[c].perslab && memBase[c].size * memBase[c].perslab == PageBytes(geo[c])
    ensures forall x :: x in free[c] ==> x in chunks && x.home == c && x !in out[c]
    ensures forall x :: x in out[c] ==> x in chunks && x.home == c
  {
  }

  /** mem_malloced is the sum of all pages; a nonzero limit is exceeded by at most one page per class. */
  ghost predicate MemoryOk(geo: seq<Geometry>, limit: nat, memBase: seq<SlabClass>, pages: seq<nat>, malloced: nat) {
    && |geo| == |pages| == |memBase|
    && (forall c {:trigger memBase[c]} {:trigger pages[c]} :: 0 <= c < |geo| ==> memBase[c].slabs == pages[c])
    && malloced == Malloced(geo, pages)
    && (limit > 0 ==> malloced <= limit + OnePageEach(geo, pages))
  }

  /** The bytes malloced, and for each class its pages and the length of its page list. */
  datatype Memory = Memory(malloced: nat, pages: seq<nat>, room: seq<nat>)

  /** Memory only grows, and past a nonzero limit a class that owns a page gets no other. */
  ghost predicate Grew(m: Memory, n: Memory, limit: nat) {
    && m.malloced <= n.malloced && |m.pages| == |n.pages| && |m.room| == |n.room|
    && (forall c {:trigger n.room[c]} :: 0 <= c < |n.room| ==> m.room[c] <= n.room[c])
    && forall c {:trigger n.pages[c]} :: 0 <= c < |n.pages| ==>
         m.pages[c] <= n.pages[c] && (limit != 0 && m.malloced > limit && m.pages[c] > 0 ==> n.pages[c] == m.pages[c])
  }

  lemma GrewNot(m: Memory, limit: nat)
    ensures Grew(m, m, limit)
  {
  }

  lemma GrewOn(a: Memory, b: Memory, c: Memory, limit: nat)
    requires Grew(a, b, limit) && Grew(b, c, limit)
    ensures Grew(a, c, limit)
  {
  }

  lemma PageCount(geo: seq<Geometry>, limit: nat, memBase: seq<SlabClass>, pages: seq<nat>, malloced: nat, c: nat)
    requires MemoryOk(geo, limit, memBase, pages, malloced) && c < |geo|
    ensures |memBase| == |pages| == |geo| && memBase[c].slabs == pages[c]
  {
  }

  lemma FreeInChunks(
      geo: seq<Geometry>, memBase: seq<SlabClass>, free: seq<seq<BaseItem>>, out: seq<map<BaseItem, nat>>,
      chunks: set<BaseItem>, c: nat)
    requires TableOk(geo, memBase, free, out, chunks) && c < |geo|
    ensures c < |free| && forall x :: x in free[c] ==> x in chunks
    ensures memBase[c].slabs <= memBase[c].listSize
  {
  }

  /** A class that changes only its own chunks, and gains no chunk but `more`, keeps the table in order. */
  lemma TableKept(
      geo: seq<Geometry>, memBase: seq<SlabClass>, free: seq<seq<BaseItem>>, out: seq<map<BaseItem, nat>>,
      chunks: set<BaseItem>,
      id: nat, p: SlabClass, f: seq<BaseItem>, o: map<BaseItem, nat>, more: set<BaseItem>)
    requires TableOk(geo, memBase, free, out, chunks) && id < |geo|
    requires ClassOk(id, geo[id], p, f, o)
    requires forall x {:trigger x in f} {:trigger x in o} {:trigger x in free[id]} {:trigger x in out[id]}
                      {:trigger x in more} ::
               x in f || x in o <==> x in free[id] || x in out[id] || x in more
    ensures TableOk(geo, memBase[id := p], free[id := f], out[id := o], chunks + more)
  {
    forall x | x in more ensures x.home == id {
      assert x in f || x in o;
    }
  }

  ghost function Grown(p: SlabClass, row: seq<BaseItem>, f: seq<BaseItem>): SlabClass {
    p.(slots := First(f), slCurr := |f|, slabList := p.slabList + [row], slabs := p.slabs + 1)
  }

  lemma PageTable(
      geo: seq<Geometry>, memBase: seq<SlabClass>, free: seq<seq<BaseItem>>, out: seq<map<BaseItem, nat>>,
      chunks: set<BaseItem>, id: nat, row: seq<BaseItem>, f: seq<BaseItem>)
    requires TableOk(geo, memBase, free, out, chunks)
    requires id < |geo| && |row| == memBase[id].perslab && IsRow(row, id, memBase[id].slabs)
    requires memBase[id].slabs < memBase[id].listSize && Distinct(f) && Pushed(row, free[id], f)
    ensures TableOk(geo, memBase[id := Grown(memBase[id], row, f)], free[id := f], out, chunks + set x | x in row)
  {
    assert ClassOk(id, geo[id], memBase[id], free[id], out[id]);
    var p := Grown(memBase[id], row, f);
    RowJoins(id, p.perslab, memBase[id].slabList, free[id], out[id], row, f);
    RowMembers(row, free[id], f);
    TableKept(geo, memBase, free, out, chunks, id, p, f, out[id], set x | x in row);
    assert out[id := out[id]] == out;
  }

  lemma PageMemory(
      geo: seq<Geometry>, limit: nat, memBase: seq<SlabClass>, malloced: nat, pages: seq<nat>,
      free: seq<seq<BaseItem>>, out: seq<map<BaseItem, nat>>, chunks: set<BaseItem>,
      id: nat, row: seq<BaseItem>, f: seq<BaseItem>)
    requires TableOk(geo, memBase, free, out, chunks) && MemoryOk(geo, limit, memBase, pages, malloced) && id < |geo|
    requires limit != 0 && memBase[id].slabs > 0 ==> malloced + memBase[id].size * memBase[id].perslab <= limit
    ensures memBase[id].size * memBase[id].perslab == PageBytes(geo[id])
    ensures MemoryOk(geo, limit, memBase[id := Grown(memBase[id], row, f)], pages[id := pages[id] + 1],
                     malloced + PageBytes(geo[id]))
  {
    assert ClassOk(id, geo[id], memBase[id], free[id], out[id]);
    PageAdded(geo, pages, id);
  }

  /** The new page seen as values: everything is in order once the page list and the counters follow the free list. */
  lemma PageShape(
      geo: seq<Geometry>, limit: nat, memBase: seq<SlabClass>, malloced: nat, pages: seq<nat>,
      free: seq<seq<BaseItem>>, out: seq<map<BaseItem, nat>>, chunks: set<BaseItem>,
      id: nat, row: seq<BaseItem>, f: seq<BaseItem>)
    requires TableOk(geo, memBase, free, out, chunks) && MemoryOk(geo, limit, memBase, pages, malloced)
    requires id < |geo| && |row| == memBase[id].perslab && IsRow(row, id, memBase[id].slabs)
    requires memBase[id].slabs < memBase[id].listSize && Distinct(f)
    requires Pushed(row, free[id], f)
    requires limit != 0 && memBase[id].slabs > 0 ==> malloced + memBase[id].size * memBase[id].perslab <= limit
    ensures TableOk(geo, memBase[id := Grown(memBase[id], row, f)], free[id := f], out, chunks + set x | x in row)
    ensures memBase[id].size * memBase[id].perslab == PageBytes(geo[id])
    ensures MemoryOk(geo, limit, memBase[id := Grown(memBase[id], row, f)], pages[id := pages[id] + 1],
                     malloced + PageBytes(geo[id]))
  {
    hide TableOk, IsRow, Grown, Distinct, Pushed;
    PageTable(geo, memBase, free, out, chunks, id, row, f);
    PageMemory(geo, limit, memBase, malloced, pages, free, out, chunks, id, row, f);
  }

  /** A table of classes that own nothing. */
  lemma EmptyShape(
      geo: seq<Geometry>, limit: nat, memBase: seq<SlabClass>, pages: seq<nat>, free: seq<seq<BaseItem>>,
      out: seq<map<BaseItem, nat>>)
    requires |geo| == |memBase| == |pages| == |free| == |out|
    requires forall c :: 0 <= c < |geo| ==>
               && memBase[c] == SlabClass(geo[c].size, geo[c].perslab, null, 0, 0, [], 0, 0)
               && pages[c] == 0 && free[c] == [] && out[c] == map[]
    ensures TableOk(geo, memBase, free, out, {}) && MemoryOk(geo, limit, memBase, pages, 0)
  {
    NoPages(geo, pages);
  }

  lemma OnePageIsSomething(geo: seq<Geometry>, powerLargest: nat, id: nat)
    requires GoodTable(geo, powerLargest) && 0 < id <= powerLargest
    ensures geo[id].perslab >= 1
  {
    assert id < powerLargest ==> Carved(geo[id], geo[powerLargest].size);
  }

  ghost function Given(p: SlabClass, f: seq<BaseItem>, x: BaseItem, size: nat): SlabClass {
    p.(slots := x, slCurr := p.slCurr + 1, requested := p.requested - size)
  }

  lemma GivenClass(id: nat, g: Geometry, p: SlabClass, f: seq<BaseItem>, o: map<BaseItem, nat>, x: BaseItem)
    requires ClassOk(id, g, p, f, o) && x in o
    ensures ClassOk(id, g, Given(p, f, x, o[x]), [x] + f, o - {x})
    ensures x !in f
  {
    assert x !in f;
    ChunkReturned(id, p.perslab, p.slabList, f, o, x);
    SumRemove(o, x);
  }

  /** The value half of a push. */
  lemma GiveShape(
      geo: seq<Geometry>, limit: nat, memBase: seq<SlabClass>, malloced: nat, pages: seq<nat>,
      free: seq<seq<BaseItem>>, out: seq<map<BaseItem, nat>>, chunks: set<BaseItem>, id: nat, x: BaseItem)
    requires TableOk(geo, memBase, free, out, chunks) && MemoryOk(geo, limit, memBase, pages, malloced)
    requires id < |geo| && x in out[id]
    ensures x !in free[id] && x in chunks && x.home == id
    ensures TableOk(geo, memBase[id := Given(memBase[id], free[id], x, out[id][x])], free[id := [x] + free[id]],
              out[id := out[id] - {x}], chunks)
    ensures MemoryOk(geo, limit, memBase[id := Given(memBase[id], free[id], x, out[id][x])], pages, malloced)
  {
    hide TableOk, Malloced, OnePageEach, ClassOk;
    ClassAt(geo, memBase, free, out, chunks, id);
    var p, f := memBase[id], free[id];
    GivenClass(id, geo[id], p, f, out[id], x);
    TableKept(geo, memBase, free, out, chunks, id, Given(p, f, x, out[id][x]), [x] + f, out[id] - {x}, {});
    assert chunks + {} == chunks;
  }

  lemma ChargedClass(id: nat, g: Geometry, p: SlabClass, f: seq<BaseItem>, o: map<BaseItem, nat>, x: BaseItem, n: nat)
    requires ClassOk(id, g, p, f, o) && x in o
    ensures ClassOk(id, g, p.(requested := p.requested - o[x] + n), f, Charge(o, x, n))
  {
    SumRemove(o, x);
    SumRemove(Charge(o, x, n), x);
    assert Charge(o, x, n) - {x} == o - {x};
    assert Charge(o, x, n).Keys == o.Keys;
  }

  lemma AdjustShape(
      geo: seq<Geometry>, limit: nat, memBase: seq<SlabClass>, malloced: nat, pages: seq<nat>,
      free: seq<seq<BaseItem>>, out: seq<map<BaseItem, nat>>, chunks: set<BaseItem>, id: nat, x: BaseItem, n: nat)
    requires TableOk(geo, memBase, free, out, chunks) && MemoryOk(geo, limit, memBase, pages, malloced)
    requires id < |geo| && x in out[id]
    ensures TableOk(geo, memBase[id := memBase[id].(requested := memBase[id].requested - out[id][x] + n)], free,
              out[id := Charge(out[id], x, n)], chunks)
    ensures MemoryOk(geo, limit, memBase[id := memBase[id].(requested := memBase[id].requested - out[id][x] + n)],
              pages, malloced)
  {
    hide TableOk, Malloced, OnePageEach, ClassOk;
    ClassAt(geo, memBase, free, out, chunks, id);
    ChargedClass(id, geo[id], memBase[id], free[id], out[id], x, n);
    TableKept(geo, memBase, free, out, chunks, id, memBase[id].(requested := memBase[id].requested - out[id][x] + n),
              free[id], Charge(out[id], x, n), {});
    assert chunks + {} == chunks && free[id := free[id]] == free;
  }

  /** The pointer half of a pop: the new head loses its predecessor. */
  method UnhookHead(it: BaseItem, ghost s: seq<BaseItem>)
    requires FreeList(s) && s != [] && it == s[0]
    modifies s`prev
    ensures FreeList(s[1..]) && Idle(it) && it.next == First(s[1..])
  {
    assert it in s;
    assert forall i :: 0 <= i < |s| - 1 ==> s[1..][i] == s[i + 1];
    assert it.next == First(s[1..]);
    if it.next != null {
      it.next.prev := null;
    }
    assert forall x :: x in s[1..] ==> x in s;
  }

  ghost function Taken(p: SlabClass, f: seq<BaseItem>, size: nat): SlabClass
    requires f != []
  {
    p.(slots := First(f[1..]), slCurr := |f| - 1, requested := p.requested + size)
  }

  lemma TakenClass(id: nat, g: Geometry, p: SlabClass, f: seq<BaseItem>, o: map<BaseItem, nat>, size: nat)
    requires ClassOk(id, g, p, f, o) && f != []
    ensures ClassOk(id, g, Taken(p, f, size), f[1..], Charge(o, f[0], size))
    ensures forall x {:trigger x in f} {:trigger x in f[1..]} :: x in f <==> x == f[0] || x in f[1..]
  {
    assert f[0] in f && f == [f[0]] + f[1..];
    ChunkTaken(id, p.perslab, p.slabList, f, o, size);
    SumInsert(o, f[0], size);
  }

  /** The value half of a pop. */
  lemma TakeShape(
      geo: seq<Geometry>, limit: nat, memBase: seq<SlabClass>, malloced: nat, pages: seq<nat>,
      free: seq<seq<BaseItem>>, out: seq<map<BaseItem, nat>>, chunks: set<BaseItem>, id: nat, size: nat)
    requires TableOk(geo, memBase, free, out, chunks) && MemoryOk(geo, limit, memBase, pages, malloced)
    requires id < |geo| && free[id] != []
    ensures free[id][0] !in out[id] && free[id][0] in chunks && free[id][0].home == id
    ensures TableOk(geo, memBase[id := Taken(memBase[id], free[id], size)], free[id := free[id][1..]],
                    out[id := Charge(out[id], free[id][0], size)], chunks)
    ensures MemoryOk(geo, limit, memBase[id := Taken(memBase[id], free[id], size)], pages, malloced)
  {
    hide TableOk, Malloced, OnePageEach, ClassOk;
    ClassAt(geo, memBase, free, out, chunks, id);
    var p, f, it := memBase[id], free[id], free[id][0];
    TakenClass(id, geo[id], p, f, out[id], size);
    TableKept(geo, memBase, free, out, chunks, id, Taken(p, f, size), f[1..], Charge(out[id], it, size), {});
    assert chunks + {} == chunks;
  }

  class Slab {
    const geo: seq<Geometry>
    const powerLargest: nat
    const memLimit: nat
    var memBase: seq<SlabClass>
    var memMalloced: nat
    ghost var pages: seq<nat>                     // the pages of each class, and the lengths of the page lists
    ghost var room: seq<nat>
    ghost var free: seq<seq<BaseItem>>            // the free lists, head first
    ghost var out: seq<map<BaseItem, nat>>        // the chunks handed out, with the bytes charged for each
    ghost var chunks: set<BaseItem>               // all chunks of all pages

    ghost function Mem(): Memory
      reads this
    {
      Memory(memMalloced, pages, room)
    }

    /** What has become of the memory since. */
    twostate predicate Growth()
      reads this
    {
      Grew(old(Mem()), Mem(), memLimit)
    }

    twostate lemma MemStays()
      requires memMalloced == old(memMalloced) && pages == old(pages) && room == old(room)
      ensures Mem() == old(Mem()) && Growth()
    {
    }

    /** Everything but the pointers inside the chunks. */
    ghost predicate Shape()
      reads this
    {
      && GoodTable(geo, powerLargest) && powerLargest < POWER_LARGEST
      && |memBase| == |geo| == |free| == |out| == |pages| == |room| == powerLargest + 1
      && (forall c {:trigger room[c]} {:trigger memBase[c]} :: 0 <= c < |room| ==> memBase[c].listSize == room[c])
      && TableOk(geo, memBase, free, out, chunks)
      && MemoryOk(geo, memLimit, memBase, pages, memMalloced)
    }

    ghost predicate Valid()
      reads this, chunks
    {
      Shape() && forall c {:trigger free[c]} :: 0 <= c < |geo| ==> FreeList(free[c])
    }

    /** The constructor up to preallocation: the table of classes, all of them empty. */
    constructor (limit: nat, chunkSize: nat, itemSizeMax: nat)
      requires HEADER + chunkSize < UINT32 && itemSizeMax < UINT32 - 16
      ensures Valid() && chunks == {} && memLimit == limit && memMalloced == 0
      ensures geo[powerLargest].size == itemSizeMax
      ensures forall c {:trigger pages[c]} :: 0 <= c < |pages| ==> pages[c] == 0 && out[c] == map[]
    {
      var g: seq<Geometry>, p: nat;
      g, p := BuildClasses(chunkSize, itemSizeMax);
      geo, powerLargest, memLimit := g, p, limit;
      memBase := seq(|g|, c requires 0 <= c < |g| => SlabClass(g[c].size, g[c].perslab, null, 0, 0, [], 0, 0));
      memMalloced := 0;
      pages := seq(|g|, _ => 0);
      room := seq(|g|, _ => 0);
      free := seq(|g|, _ => []);
      out := seq(|g|, _ => map[]);
      chunks := {};
      new;
      hide GoodTable;
      EmptyShape(geo, memLimit, memBase, pages, free, out);
    }

    /** grow_slab_list: the page list doubles when it is full; false when realloc fails. */
    method GrowSlabList(id: nat, reallocOk: bool) returns (ok: bool)
      requires Valid() && 0 < id < |memBase|
      modifies this`memBase, this`room
      ensures Valid() && |room| == |old(room)|
      ensures forall c {:trigger room[c]} :: 0 <= c < |room| ==> old(room)[c] <= room[c]
      ensures ok ==> memBase[id].slabs < memBase[id].listSize
      ensures ok <==> reallocOk || old(memBase[id].slabs < memBase[id].listSize)
      ensures memBase == old(memBase)[id := old(memBase[id]).(listSize :=
                if old(memBase[id].slabs == memBase[id].listSize) && reallocOk
                then (if old(memBase[id].listSize) != 0 then old(memBase[id].listSize) * 2 else 16)
                else old(memBase[id].listSize))]
    {
      var p := memBase[id];
      ListSizeDoubles(p.listSize);
      if p.slabs == p.listSize {
        if !reallocOk { return false; }
        memBase := memBase[id := p.(listSize := if p.listSize != 0 then p.listSize * 2 else 16)];
        room := room[id := memBase[id].listSize];
      }
      return true;
    }

    /** The page a class may not have: the limit is set, would be passed, and the class already owns a page. */
    ghost predicate OverLimit(id: nat)
      requires id < |memBase|
      reads this
    {
      memLimit != 0 && memMalloced + memBase[id].size * memBase[id].perslab > memLimit && memBase[id].slabs > 0
    }

    /** The length of a page is an int; one of 2^31 bytes or more is negative, and malloc is asked for nearly 2^64. */
    ghost predicate LengthOk(id: nat)
      requires id < |memBase|
      reads this
    {
      memBase[id].size * memBase[id].perslab < INT32
    }

    lemma Sizes()
      requires Valid()
      ensures |memBase| == |geo| == |free| == |out| == |pages|
      ensures forall c {:trigger pages[c]} :: 0 <= c < |pages| ==> memBase[c].slabs == pages[c]
    {
    }

    /** do_slabs_free: push a chunk on the free list of its class, unless it still carries a class or id is 0. */
    method DoSlabsFree(ptr: BaseItem, size: nat, id: nat)
      requires id < |memBase| == |free| == |out| == |geo|
      requires ptr.clsid == 0 && id != 0 ==>
                 && memBase[id].slots == First(free[id]) && memBase[id].slCurr == |free[id]|
                 && FreeList(free[id]) && ptr !in free[id]
                 && !ptr.flag.linked && ptr.refcount == 0 && ptr.handles == 0 && ptr.leaks == 0
      modifies this`memBase, this`free, this`out, ptr`next, ptr`prev, ptr`flag, free[id]`prev
      ensures old(ptr.clsid) != 0 || id == 0 || id > POWER_LARGEST ==>
                unchanged(this) && unchanged(ptr) && unchanged(old(free[id]))
      ensures old(ptr.clsid) == 0 && 0 < id <= POWER_LARGEST ==>
                && free == old(free)[id := [ptr] + old(free[id])] && FreeList(free[id])
                && out == old(out)[id := old(out[id]) - {ptr}]
                && memBase == old(memBase)[id := old(memBase[id]).(
                     slots := ptr, slCurr := old(memBase[id]).slCurr + 1,
                     requested := old(memBase[id]).requested - size)]
                && ptr.flag == old(ptr.flag).(slabbed := true)
    {
      if ptr.clsid != 0 || id < POWER_SMALLEST || id > POWER_LARGEST { return; }
      var p := memBase[id];
      ptr.flag := ptr.flag.(slabbed := true);
      ptr.prev := null;
      ptr.next := p.slots;
      if ptr.next != null {
        ptr.next.prev := ptr;
      }
      memBase := memBase[id := p.(slots := ptr, slCurr := p.slCurr + 1, requested := p.requested - size)];
      free := free[id := [ptr] + free[id]];
      out := out[id := out[id] - {ptr}];
    }

    /** split_slab_page_into_freelist: every chunk of a new page goes on the free list, the last one on top. */
    method SplitPage(row: seq<BaseItem>, id: nat)
      requires 0 < id < |memBase| == |free| == |out| == |geo| && id <= POWER_LARGEST
      requires memBase[id].slots == First(free[id]) && memBase[id].slCurr == |free[id]| && FreeList(free[id])
      requires |row| == memBase[id].perslab && Distinct(row)
      requires forall j {:trigger row[j]} ::
                  0 <= j < |row| ==> Blank(row[j]) && row[j] !in free[id] && row[j] !in out[id]
      modifies this`memBase, this`free, this`out, row, free[id]`prev
      ensures |free| == |old(free)| && out == old(out)
      ensures free == old(free)[id := free[id]] && FreeList(free[id])
      ensures Pushed(row, old(free[id]), free[id])
      ensures memBase == old(memBase)[id := old(memBase[id]).(slots := First(free[id]), slCurr := |free[id]|)]
    {
      for i := 0 to memBase[id].perslab
        invariant |free| == |old(free)| && |memBase| == |old(memBase)| && out == old(out)
        invariant free == old(free)[id := free[id]] && FreeList(free[id])
        invariant |free[id]| == i + |old(free[id])| && free[id][i..] == old(free[id])
        invariant forall j :: 0 <= j < i ==> free[id][j] == row[i - 1 - j]
        invariant memBase == old(memBase)[id := old(memBase[id]).(slots := First(free[id]), slCurr := |free[id]|)]
        invariant forall j {:trigger row[j]} :: i <= j < |row| ==> Blank(row[j])
      {
        assert out[id] - {row[i]} == out[id];
        DoSlabsFree(row[i], 0, id);
      }
    }

    /** memory_allocate and memset: one page of zeroed chunks, each with its own address. */
    method NewPage(id: nat, page: nat, perslab: nat) returns (row: seq<BaseItem>)
      ensures fresh(row) && |row| == perslab && IsRow(row, id, page)
      ensures forall j {:trigger row[j]} :: 0 <= j < perslab ==> Blank(row[j])
    {
      row := [];
      for i := 0 to perslab
        invariant |row| == i && fresh(row) && IsRow(row, id, page)
        invariant forall j {:trigger row[j]} :: 0 <= j < i ==> Blank(row[j])
      {
        var x := new BaseItem(id, page, i);
        row := row + [x];
      }
    }

    /** Allocate the page and put its chunks on the free list; the page list and the counters come after. */
    method PushPage(id: nat) returns (row: seq<BaseItem>)
      requires Valid() && 0 < id < |memBase|
      modifies this`memBase, this`free, this`out, free[id]`prev
      ensures fresh(row) && |row| == old(memBase[id]).perslab && IsRow(row, id, old(memBase[id]).slabs)
      ensures out == old(out) && |free| == |old(free)| && free == old(free)[id := free[id]] && Distinct(free[id])
      ensures Pushed(row, old(free[id]), free[id])
      ensures memBase == old(memBase)[id := old(memBase[id]).(slots := First(free[id]), slCurr := |free[id]|)]
      ensures forall c {:trigger free[c]} :: 0 <= c < |geo| ==> FreeList(free[c])
    {
      hide TableOk, MemoryOk, GoodTable, ClassOk, IsRow;
      ClassAt(geo, memBase, free, out, chunks, id);
      assert FreeList(free[id]);
      row := NewPage(id, memBase[id].slabs, memBase[id].perslab);
      SplitPage(row, id);
      forall c | 0 <= c < |geo| && c != id ensures FreeList(free[c]) {
        ClassAt(geo, old(memBase), old(free), out, chunks, c);
        assert old(FreeList(free[c]));
        forall i | 0 <= i < |free[c]| ensures unchanged(free[c][i]) {
          assert free[c][i] in free[c];
        }
      }
    }

    /** The end of do_slabs_newslab: the page, its chunks on the free list, the page list and the counters. */
    method AddPage(id: nat, len: nat)
      requires Valid() && 0 < id < |memBase| && memBase[id].slabs < memBase[id].listSize
      requires len == memBase[id].size * memBase[id].perslab && !OverLimit(id)
      modifies this, free[id]`prev
      ensures Valid()
      ensures out == old(out) && old(chunks) <= chunks && fresh(chunks - old(chunks))
      ensures |free| == |old(free)| && free == old(free)[id := free[id]]
      ensures memMalloced == old(memMalloced) + PageBytes(geo[id])
      ensures pages == old(pages)[id := old(pages[id]) + 1] && room == old(room)
      ensures |free[id]| == geo[id].perslab + |old(free[id])| && free[id][geo[id].perslab..] == old(free[id])
      ensures fresh(free[id][..geo[id].perslab])
    {
      hide TableOk, MemoryOk, GoodTable, FreeList, ClassOk, IsRow, PageBytes, Distinct;
      ClassAt(geo, memBase, free, out, chunks, id);
      ghost var was := memBase;
      var row := PushPage(id);
      PageShape(geo, memLimit, was, memMalloced, pages, old(free), out, chunks, id, row, free[id]);
      memBase := memBase[id := memBase[id].(slabList := memBase[id].slabList + [row], slabs := memBase[id].slabs + 1)];
      assert memBase == was[id := Grown(was[id], row, free[id])];
      chunks := chunks + set x | x in row;
      pages := pages[id := pages[id] + 1];
      memMalloced := memMalloced + len;
    }

    /**
     * do_slabs_newslab: one page for class id, unless the limit forbids it or realloc or malloc fails. A class that
     * owns a page never grows once the limit has been passed, since mem_malloced never shrinks.
     */
    method DoSlabsNewslab(id: nat, reallocOk: bool, mallocOk: bool) returns (ok: bool)
      requires Valid() && 0 < id < |memBase|
      modifies this, free[id]`prev
      ensures Valid() && Growth()
      ensures ok <==>
                && !old(OverLimit(id)) && (reallocOk || old(memBase[id].slabs < memBase[id].listSize)) && mallocOk
                && old(LengthOk(id))
      ensures out == old(out) && old(chunks) <= chunks && fresh(chunks - old(chunks))
      ensures |free| == |old(free)| && free == old(free)[id := free[id]]
      ensures !ok ==>
                && memMalloced == old(memMalloced) && pages == old(pages) && chunks == old(chunks)
                && free == old(free) && unchanged(old(free[id]))
      ensures ok ==>
                && memMalloced == old(memMalloced) + PageBytes(geo[id])
                && pages == old(pages)[id := old(pages[id]) + 1]
                && |free[id]| == geo[id].perslab + |old(free[id])| && free[id][geo[id].perslab..] == old(free[id])
                && fresh(free[id][..geo[id].perslab])
    {
      hide Slab.Valid, PageBytes;
      Sizes();
      assert free[id := free[id]] == free;
      var len := memBase[id].size * memBase[id].perslab;
      if memLimit != 0 && memMalloced + len > memLimit && memBase[id].slabs > 0 { return false; }
      var grown := GrowSlabList(id, reallocOk);
      if !grown || !mallocOk || len >= INT32 { return false; }
      AddPage(id, len);
      return true;
    }

    /**
     * slabs_preallocate: one page for every class but the last, up to maxslabs of them; the process exits when a page
     * cannot be had. A first page is never refused for the limit.
     */
    method SlabsPreallocate(maxslabs: nat, reallocOk: nat -> bool, mallocOk: nat -> bool) returns (ok: bool)
      requires Valid() && forall c {:trigger pages[c]} :: 0 <= c < |pages| ==> pages[c] == 0
      modifies this, chunks
      ensures Valid() && out == old(out) && |pages| == powerLargest + 1 && powerLargest < POWER_LARGEST
      ensures |memBase| == |geo|
      ensures old(chunks) <= chunks && fresh(chunks - old(chunks))
      ensures ok ==> forall c {:trigger pages[c]} :: 0 <= c < |pages| ==>
                pages[c] == if 1 <= c < powerLargest && c <= maxslabs then 1 else 0
      ensures (forall c :: reallocOk(c) && mallocOk(c)) && geo[powerLargest].size < INT32 ==> ok
    {
      var i := POWER_SMALLEST;
      var prealloc := 0;
      while i < powerLargest
        invariant Valid() && out == old(out) && 1 <= i <= powerLargest && prealloc == i - 1 <= maxslabs
        invariant old(chunks) <= chunks && fresh(chunks - old(chunks))
        invariant |pages| == powerLargest + 1
        invariant forall c {:trigger pages[c]} :: 0 <= c < |pages| ==> pages[c] == if 1 <= c < i then 1 else 0
      {
        prealloc := prealloc + 1;
        if prealloc > maxslabs { return true; }
        PageCount(geo, memLimit, memBase, pages, memMalloced, i);
        FreeInChunks(geo, memBase, free, out, chunks, i);
        var grown := DoSlabsNewslab(i, reallocOk(i), mallocOk(i));
        if !grown { return false; }
        i := i + 1;
      }
      return true;
    }

    /** Class id has a free chunk, or could have a page. */
    ghost predicate CanServe(id: nat, reallocOk: bool, mallocOk: bool)
      reads this
    {
      && 0 < id < |memBase| && id < |free|
      && (free[id] != [] ||
          (!OverLimit(id) && (reallocOk || memBase[id].slabs < memBase[id].listSize) && mallocOk && LengthOk(id)))
    }

    /** Whatever could be served can still be. */
    twostate predicate NoPoorer()
      reads this
    {
      forall c: nat, r: bool, m: bool {:trigger CanServe(c, r, m)} :: old(CanServe(c, r, m)) ==> CanServe(c, r, m)
    }

    /** Take the head of a free list that is not empty. */
    method PopFree(size: nat, id: nat) returns (it: BaseItem)
      requires Valid() && 0 < id < |memBase| && free[id] != []
      modifies this`memBase, this`free, this`out, free[id]`prev
      ensures Valid()
      ensures it == old(free[id])[0] && Idle(it) && it in chunks && it.home == id && it !in old(out[id])
      ensures |free| == |old(free)| && free == old(free)[id := old(free[id])[1..]]
      ensures |out| == |old(out)| && out == old(out)[id := Charge(old(out[id]), it, size)]
      ensures |memBase| == |old(memBase)|
    {
      hide TableOk, MemoryOk, GoodTable, ClassOk, Charge;
      ClassAt(geo, memBase, free, out, chunks, id);
      assert FreeList(free[id]);
      it := memBase[id].slots;
      UnhookHead(it, free[id]);
      TakeShape(geo, memLimit, memBase, memMalloced, pages, free, out, chunks, id, size);
      forall c | 0 <= c < |geo| && c != id ensures FreeList(free[c]) {
        ClassAt(geo, memBase, free, out, chunks, c);
        assert old(FreeList(free[c]));
        forall i | 0 <= i < |free[c]| ensures unchanged(free[c][i]) {
          assert free[c][i] in free[c];
        }
      }
      var p := memBase[id];
      memBase := memBase[id := p.(slots := it.next, slCurr := p.slCurr - 1, requested := p.requested + size)];
      free := free[id := free[id][1..]];
      out := out[id := Charge(out[id], it, size)];
    }

    /** `p.sl_curr != 0 || do_slabs_newslab(id) != 0` */
    method EnsureRoom(id: nat, reallocOk: bool, mallocOk: bool) returns (ok: bool)
      requires Valid() && 0 < id < |memBase|
      modifies this, free[id]`prev
      ensures Valid() && Growth() && |free| == |old(free)| && free == old(free)[id := free[id]] && out == old(out)
      ensures ok <==> old(CanServe(id, reallocOk, mallocOk))
      ensures ok ==>
                && free[id] != [] && (old(free[id]) != [] ==> free == old(free))
                && (old(free[id]) == [] ==> fresh(free[id]))
      ensures !ok ==> free == old(free) && chunks == old(chunks)
      ensures old(chunks) <= chunks && fresh(chunks - old(chunks))
    {
      hide TableOk, MemoryOk, GoodTable, FreeList, ClassOk;
      assert free[id := free[id]] == free;
      ClassAt(geo, memBase, free, out, chunks, id);
      if memBase[id].slCurr != 0 { return true; }
      OnePageIsSomething(geo, powerLargest, id);
      ok := DoSlabsNewslab(id, reallocOk, mallocOk);
      if ok { assert free[id] == free[id][..geo[id].perslab]; }
    }

    /**
     * do_slabs_alloc: the head of the free list of class id, after a new page if the list is empty. It returns null
     * exactly when id is 0 or the list is empty and no page can be had.
     */
    method DoSlabsAlloc(size: nat, id: nat, reallocOk: bool, mallocOk: bool) returns (it: BaseItem?)
      requires Valid() && id < |memBase|
      modifies this, free[id]`prev
      ensures Valid() && Growth() && |free| == |old(free)| && |out| == |old(out)|
      ensures it == null <==> !old(CanServe(id, reallocOk, mallocOk))
      ensures it == null ==> out == old(out) && free == old(free) && chunks == old(chunks)
      ensures it != null ==>
                && Idle(it) && it in chunks && it.home == id && (it in old(chunks) || fresh(it))
                && it !in old(out[id]) && out == old(out)[id := Charge(old(out[id]), it, size)]
                && (old(free[id]) != [] ==> it == old(free[id])[0] && free == old(free)[id := old(free[id])[1..]])
      ensures old(chunks) <= chunks && fresh(chunks - old(chunks))
      ensures free == old(free)[id := free[id]]
    {
      hide TableOk, MemoryOk, GoodTable, FreeList, ClassOk, Charge, Idle;
      assert free[id := free[id]] == free;
      if id < POWER_SMALLEST || id > POWER_LARGEST {
        return null;
      }
      var room := EnsureRoom(id, reallocOk, mallocOk);
      if !room { return null; }
      it := PopFree(size, id);
    }

    /** do_slabs_free with the lock taken: a chunk that is handed out and idle again goes back to its class. */
    method SlabsFree(ptr: BaseItem, size: nat, id: nat)
      requires Valid() && 0 < id < |memBase|
      requires ptr in out[id] && size == out[id][ptr]
      requires ptr.clsid == 0 && !ptr.flag.linked && ptr.refcount == 0 && ptr.handles == 0 && ptr.leaks == 0
      modifies this`memBase, this`free, this`out, ptr`next, ptr`prev, ptr`flag, free[id]`prev
      ensures Valid() && |free| == |old(free)| && |out| == |old(out)|
      ensures free == old(free)[id := [ptr] + old(free[id])] && out == old(out)[id := old(out[id]) - {ptr}]
      ensures |memBase| == |old(memBase)| && Idle(ptr) && NoPoorer()
    {
      hide TableOk, MemoryOk, GoodTable, ClassOk;
      ClassAt(geo, memBase, free, out, chunks, id);
      assert FreeList(free[id]);
      forall c | 0 <= c < |geo| && c != id
        ensures forall x :: x in free[c] ==> x in chunks && x.home == c
      {
        ClassAt(geo, memBase, free, out, chunks, c);
      }
      GiveShape(geo, memLimit, memBase, memMalloced, pages, free, out, chunks, id, ptr);
      DoSlabsFree(ptr, size, id);
      forall c | 0 <= c < |geo| && c != id ensures FreeList(free[c]) {
        assert old(FreeList(free[c]));
        forall i | 0 <= i < |free[c]| ensures unchanged(free[c][i]) {
          assert free[c][i] in free[c];
        }
      }
    }

    /** slabs_adjust_mem_requested: a chunk changes hands without passing through the free list. */
    method SlabsAdjustMemRequested(id: nat, prior: nat, ntotal: nat, ghost it: BaseItem)
      requires Valid() && 0 < id < |memBase|
      requires it in out[id] && out[id][it] == prior
      modifies this`memBase, this`out
      ensures Valid() && |out| == |old(out)|
      ensures out == old(out)[id := Charge(old(out[id]), it, ntotal)]
      ensures |memBase| == |old(memBase)|
    {
      hide TableOk, MemoryOk, GoodTable, FreeList, ClassOk, Charge;
      AdjustShape(geo, memLimit, memBase, memMalloced, pages, free, out, chunks, id, it, ntotal);
      var p := memBase[id];
      memBase := memBase[id := p.(requested := p.requested - prior + ntotal)];
      out := out[id := Charge(out[id], it, ntotal)];
    }
  }
}
