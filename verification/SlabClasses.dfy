/** The table of size classes: how the constructor builds it and how a request finds its class. */
module SlabClasses {
  import opened Layout

  /** The two fields of a slabclass that never change after construction. */
  datatype Geometry = Geometry(size: nat, perslab: nat)

  function AlignUp(size: nat): (r: nat)
    ensures r % CHUNK_ALIGN_BYTES == 0 && size <= r < size + CHUNK_ALIGN_BYTES
  {
    if size % CHUNK_ALIGN_BYTES == 0 then size else size + (CHUNK_ALIGN_BYTES - size % CHUNK_ALIGN_BYTES)
  }

  /** The size the loop tries next: the factor is 6/5, and the product is cut to an integer. */
  function NextSize(size: nat): nat { size * 6 / 5 }

  /** A class below the last: aligned, and at least one of its chunks fits in a page of at most max bytes. */
  predicate Carved(x: Geometry, max: nat) {
    && x.size % CHUNK_ALIGN_BYTES == 0
    && HEADER <= x.size < max
    && 1 <= x.perslab && x.size * x.perslab <= max
  }

  /** As many chunks as the largest item leaves room for. */
  predicate FillsPage(x: Geometry, max: nat) { x.size > 0 && x.perslab == max / x.size }

  /** One turn of the loop: multiply, then align. */
  predicate StepsTo(a: Geometry, b: Geometry) { b.size == AlignUp(NextSize(a.size)) }

  /** Sizes rise, by a factor of at most 6/5 and the alignment. */
  predicate Follows(a: Geometry, b: Geometry) { a.size < b.size <= NextSize(a.size) + 7 }

  /** The classes 1..p of a table: entry 0 is a placeholder and entry p holds one chunk of the largest item. */
  ghost predicate GoodTable(g: seq<Geometry>, p: nat) {
    && 1 <= p && |g| == p + 1
    && g[p].perslab == 1
    && (forall c :: 1 <= c < p ==> Carved(g[c], g[p].size))
    && (forall c, d :: 1 <= c < p && d == c + 1 && d < p ==> Follows(g[c], g[d]))
  }

  lemma {:induction false} SizesRise(g: seq<Geometry>, p: nat, c: nat, d: nat)
    requires GoodTable(g, p) && 1 <= c < d <= p
    ensures g[c].size < g[d].size
    decreases d
  {
    assert Carved(g[c], g[p].size);
    if d < p {
      assert Follows(g[d - 1], g[d]) by { assert d == (d - 1) + 1; }
      if c < d - 1 { SizesRise(g, p, c, d - 1); }
    }
  }

  // ---------- the loop never reaches POWER_LARGEST ----------

  /** A lower bound on the size after n turns of the loop. */
  function Floor(n: nat): nat { if n == 0 then HEADER else NextSize(Floor(n - 1)) }

  function Pow2(n: nat): (r: nat)
    ensures r >= 1
  {
    if n == 0 then 1 else 2 * Pow2(n - 1)
  }

  lemma NextSizeMonotone(a: nat, b: nat)
    requires a <= b
    ensures NextSize(a) <= NextSize(b)
  {
  }

  /** Five turns at least double a size. */
  lemma FiveTurnsDouble(s: nat)
    requires s >= HEADER
    ensures NextSize(NextSize(NextSize(NextSize(NextSize(s))))) >= 2 * s
  {
    var a := NextSize(s);
    var b := NextSize(a);
    var c := NextSize(b);
    var d := NextSize(c);
    assert 5 * a >= 6 * s - 4 && 5 * b >= 6 * a - 4 && 5 * c >= 6 * b - 4 && 5 * d >= 6 * c - 4;
  }

  lemma {:induction false} FloorDoubles(m: nat)
    ensures Floor(5 * m) >= HEADER * Pow2(m)
  {
    if m > 0 {
      FloorDoubles(m - 1);
      var n := 5 * (m - 1);
      assert Floor(n + 1) == NextSize(Floor(n));
      assert Floor(n + 2) == NextSize(Floor(n + 1));
      assert Floor(n + 3) == NextSize(Floor(n + 2));
      assert Floor(n + 4) == NextSize(Floor(n + 3));
      assert Floor(n + 5) == NextSize(Floor(n + 4));
      FiveTurnsDouble(Floor(n));
    }
  }

  lemma {:induction false} FloorGrows(m: nat, n: nat)
    requires m <= n
    ensures HEADER <= Floor(m) <= Floor(n)
    decreases n
  {
    if m < n {
      FloorGrows(m, n - 1);
    } else if n > 0 {
      FloorGrows(n - 1, n - 1);
    }
  }

  lemma {:induction false} Pow2Sum(a: nat, b: nat)
    ensures Pow2(a + b) == Pow2(a) * Pow2(b)
  {
    if a > 0 { Pow2Sum(a - 1, b); }
  }

  lemma Pow27()
    ensures Pow2(27) == 0x800_0000
  {
    assert Pow2(9) == 512;
    Pow2Sum(9, 9);
    Pow2Sum(18, 9);
  }

  lemma LoopStops(n: nat, size: nat, max: nat)
    requires max < UINT32 && Floor(n) <= size && 6 * size <= 5 * max
    ensures n < 135
  {
    FloorDoubles(27);
    Pow27();
    if n >= 135 { FloorGrows(135, n); }
  }

  lemma CarvedFits(size: nat, max: nat)
    requires HEADER <= size && 6 * size <= 5 * max
    ensures Carved(Geometry(AlignUp(size), max / AlignUp(size)), max)
    ensures NextSize(AlignUp(size)) < max + 10
  {
    var a := AlignUp(size);
    var q := max / a;
    assert max == a * q + max % a;
  }

  /**
   * The table-building loop of the Slab constructor. For every chunk size and every 32-bit item size limit the table
   * is well formed, no 32-bit product wraps, and it has fewer than POWER_LARGEST classes, so that a class id is
   * always a valid index of the LRU arrays.
   */
  method BuildClasses(chunkSize: nat, itemSizeMax: nat) returns (g: seq<Geometry>, powerLargest: nat)
    requires HEADER + chunkSize < UINT32 && itemSizeMax < UINT32 - 16
    ensures GoodTable(g, powerLargest) && g[powerLargest].size == itemSizeMax
    ensures powerLargest < POWER_LARGEST
    ensures powerLargest > 1 ==> g[1].size == AlignUp(HEADER + chunkSize)
    ensures powerLargest > 1 ==> 6 * NextSize(g[powerLargest - 1].size) > 5 * itemSizeMax
    ensures powerLargest == 1 <==> 6 * (HEADER + chunkSize) > 5 * itemSizeMax
    ensures forall c, d :: 1 <= c && d == c + 1 && d < powerLargest ==> StepsTo(g[c], g[d])
    ensures forall c :: 1 <= c < powerLargest ==> FillsPage(g[c], itemSizeMax)
  {
    var i := POWER_SMALLEST;
    var size := HEADER + chunkSize;
    g := [Geometry(0, 0)];
    while i < POWER_LARGEST && 6 * size <= 5 * itemSizeMax
      invariant 1 <= i <= 136 && |g| == i
      invariant HEADER <= size < UINT32 && Floor(i - 1) <= size
      invariant i > 1 ==> size == NextSize(g[i - 1].size)
      invariant i > 1 ==> g[1].size == AlignUp(HEADER + chunkSize)
      invariant i == 1 ==> size == HEADER + chunkSize
      invariant i > 1 ==> 6 * (HEADER + chunkSize) <= 5 * itemSizeMax
      invariant forall c, d :: 1 <= c && d == c + 1 && d < i ==> StepsTo(g[c], g[d])
      invariant forall c :: 1 <= c < i ==> FillsPage(g[c], itemSizeMax)
      invariant forall c :: 1 <= c < i ==> Carved(g[c], itemSizeMax)
      invariant forall c, d :: 1 <= c < i && d == c + 1 && d < i ==> Follows(g[c], g[d])
    {
      LoopStops(i - 1, size, itemSizeMax);
      CarvedFits(size, itemSizeMax);
      ghost var before := size;
      size := AlignUp(size);
      NextSizeMonotone(Floor(i - 1), size);
      assert i > 1 ==> Follows(g[i - 1], Geometry(size, itemSizeMax / size));
      g := g + [Geometry(size, itemSizeMax / size)];
      size := NextSize(size);
      i := i + 1;
    }
    powerLargest := i;
    g := g + [Geometry(itemSizeMax, 1)];
  }

  // ---------- finding a class ----------

  /**
   * slabs_clsid: 0 exactly for a request of 0 bytes or of more than the largest item; otherwise the least class
   * whose chunks fit, which for a class strictly inside the table wastes at most a fifth of the request and 7 bytes.
   */
  method SlabsClsid(g: seq<Geometry>, powerLargest: nat, size: nat) returns (res: nat)
    requires GoodTable(g, powerLargest)
    ensures res == 0 <==> size == 0 || size > g[powerLargest].size
    ensures res != 0 ==> 1 <= res <= powerLargest && size <= g[res].size
    ensures res != 0 ==> forall c :: 1 <= c <= powerLargest && size <= g[c].size ==> res <= c
    ensures 1 < res < powerLargest ==> 5 * g[res].size <= 6 * (size - 1) + 35
  {
    res := POWER_SMALLEST;
    if size == 0 { return 0; }
    while size > g[res].size
      invariant 1 <= res <= powerLargest
      invariant forall c :: 1 <= c < res ==> g[c].size < size
    {
      if res == powerLargest { return 0; }
      res := res + 1;
    }
    if 1 < res < powerLargest {
      assert Follows(g[res - 1], g[res]);
    }
  }
}
