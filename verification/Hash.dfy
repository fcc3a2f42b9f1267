/** The hash of a key, the bucket and the lock it leads to, and the store built on them. */
module Hashing {
  import opened Layout
  import opened CacheSpec
  import opened SlabClasses
  import opened ItemStore

  function Bit(n: nat, d: nat): bool
    requires d > 0
  {
    n / d % 2 == 1
  }

  /** A signed char as a 32-bit word: its highest bit fills all the places above. */
  function Word(b0: bool, b1: bool, b2: bool, b3: bool, b4: bool, b5: bool, b6: bool, b7: bool): bv32 {
    (if b0 then 1 else 0) | (if b1 then 2 else 0) | (if b2 then 4 else 0) | (if b3 then 8 else 0)
    | (if b4 then 16 else 0) | (if b5 then 32 else 0) | (if b6 then 64 else 0) | (if b7 then 0xFFFF_FF80 else 0)
  }

  /** The conversion of a char of the key, which is signed, to the word it is added to. */
  function SignExtend(b: byte): bv32 {
    var low, high := b as nat, b as nat / 16;
    Word(Bit(low, 1), Bit(low, 2), Bit(low, 4), Bit(low, 8), Bit(high, 1), Bit(high, 2), Bit(high, 4), Bit(high, 8))
  }

  /** hash += key[i] */
  function Plus(h: bv32, w: bv32): bv32 { h + w }

  /** hash += hash << k, for the three distances it is done with */
  function Add3(h: bv32): bv32 { h + (h << 3) }

  function Add10(h: bv32): bv32 { h + (h << 10) }

  function Add15(h: bv32): bv32 { h + (h << 15) }

  /** hash ^= hash >> k, for the two distances it is done with */
  function Xor6(h: bv32): bv32 { h ^ (h >> 6) }

  function Xor11(h: bv32): bv32 { h ^ (h >> 11) }

  /** One turn of the loop over the key. */
  function Turn(h: bv32, b: byte): bv32 { Xor6(Add10(Plus(h, SignExtend(b)))) }

  function Mixed(key: Key): bv32
    decreases |key|
  {
    if key == [] then 0 else Turn(Mixed(key[..|key| - 1]), key[|key| - 1])
  }

  function Finished(h: bv32): bv32 { Add15(Xor11(Add3(h))) }

  function HashOf(key: Key): bv32 { Finished(Mixed(key)) }

  /** The three assignments of the loop body. */
  method MixByte(h: bv32, b: byte) returns (hash: bv32)
    ensures hash == Turn(h, b)
  {
    hide Add3, Add10, Add15, Xor6, Xor11, SignExtend;
    hash := Plus(h, SignExtend(b));
    hash := Add10(hash);
    hash := Xor6(hash);
  }

  /** The three assignments after the loop. */
  method Finish(h: bv32) returns (hash: bv32)
    ensures hash == Finished(h)
  {
    hide Add3, Add10, Add15, Xor6, Xor11;
    hash := Add3(h);
    hash := Xor11(hash);
    hash := Add15(hash);
  }

  /** hash: the loop keeps one word and never looks back at the key. */
  method Hash(key: Key) returns (hash: bv32)
    ensures hash == HashOf(key)
  {
    hide Turn, Finished;
    hash := 0;
    for i := 0 to |key|
      invariant hash == Mixed(key[..i])
    {
      assert key[..i + 1][..i] == key[..i];
      hash := MixByte(hash, key[i]);
    }
    assert key[..|key|] == key;
    hash := Finish(hash);
  }

  // ---------- no byte of a key is lost on the way ----------

  /** h + (h << k) is h times 2^k + 1, which is odd and so has an inverse. */
  ghost function By9(h: bv32): bv32 { h * 9 }

  ghost function By1025(h: bv32): bv32 { h * 1025 }

  ghost function By32769(h: bv32): bv32 { h * 32769 }

  ghost function Undo3(y: bv32): bv32 { y * 954437177 }

  ghost function Undo10(y: bv32): bv32 { y * 3222273025 }

  ghost function Undo15(y: bv32): bv32 { y * 1073709057 }

  lemma Times9(h: bv32)
    ensures By9(h) == h + (h << 3)
  {
  }

  lemma Times1025(h: bv32)
    ensures By1025(h) == h + (h << 10)
  {
  }

  lemma Times32769(h: bv32)
    ensures By32769(h) == h + (h << 15)
  {
  }

  lemma Undone3(h: bv32)
    ensures Undo3(h * 9) == h
  {
  }

  lemma Undone10(h: bv32)
    ensures Undo10(h * 1025) == h
  {
  }

  lemma Undone15(h: bv32)
    ensures Undo15(h * 32769) == h
  {
  }

  /** The bits shifted out of h ^ (h >> k) come back one stretch of k bits after the other. */
  ghost function Undo6(y: bv32): bv32 { y ^ (y >> 6) ^ (y >> 12) ^ (y >> 18) ^ (y >> 24) ^ (y >> 30) }

  ghost function Undo11(y: bv32): bv32 { y ^ (y >> 11) ^ (y >> 22) }

  lemma Undone6(h: bv32)
    ensures Undo6(h ^ (h >> 6)) == h
  {
  }

  lemma Undone11(h: bv32)
    ensures Undo11(h ^ (h >> 11)) == h
  {
  }

  /** None of the five assignments loses anything. */
  lemma Add3Keeps(x: bv32, y: bv32)
    requires Add3(x) == Add3(y)
    ensures x == y
  {
    hide Undo3;
    Times9(x);
    Times9(y);
    Undone3(x);
    Undone3(y);
  }

  lemma Add10Keeps(x: bv32, y: bv32)
    requires Add10(x) == Add10(y)
    ensures x == y
  {
    hide Undo10;
    Times1025(x);
    Times1025(y);
    Undone10(x);
    Undone10(y);
  }

  lemma Add15Keeps(x: bv32, y: bv32)
    requires Add15(x) == Add15(y)
    ensures x == y
  {
    hide Undo15;
    Times32769(x);
    Times32769(y);
    Undone15(x);
    Undone15(y);
  }

  lemma Xor6Keeps(x: bv32, y: bv32)
    requires Xor6(x) == Xor6(y)
    ensures x == y
  {
    hide Undo6;
    Undone6(x);
    Undone6(y);
  }

  lemma Xor11Keeps(x: bv32, y: bv32)
    requires Xor11(x) == Xor11(y)
    ensures x == y
  {
    hide Undo11;
    Undone11(x);
    Undone11(y);
  }

  lemma WordBits(b0: bool, b1: bool, b2: bool, b3: bool, b4: bool, b5: bool, b6: bool, b7: bool)
    ensures var w := Word(b0, b1, b2, b3, b4, b5, b6, b7);
            && (w & 1 != 0 <==> b0) && (w & 2 != 0 <==> b1) && (w & 4 != 0 <==> b2) && (w & 8 != 0 <==> b3)
            && (w & 16 != 0 <==> b4) && (w & 32 != 0 <==> b5) && (w & 64 != 0 <==> b6) && (w & 128 != 0 <==> b7)
  {
  }

  lemma WordKeepsBits(
      b0: bool, b1: bool, b2: bool, b3: bool, b4: bool, b5: bool, b6: bool, b7: bool,
      c0: bool, c1: bool, c2: bool, c3: bool, c4: bool, c5: bool, c6: bool, c7: bool)
    requires Word(b0, b1, b2, b3, b4, b5, b6, b7) == Word(c0, c1, c2, c3, c4, c5, c6, c7)
    ensures b0 == c0 && b1 == c1 && b2 == c2 && b3 == c3 && b4 == c4 && b5 == c5 && b6 == c6 && b7 == c7
  {
    hide Word;
    WordBits(b0, b1, b2, b3, b4, b5, b6, b7);
    WordBits(c0, c1, c2, c3, c4, c5, c6, c7);
  }

  /** Numbers that agree above their lowest four bits are known by those. */
  lemma FourBits(m: nat, n: nat)
    requires Bit(m, 1) == Bit(n, 1) && Bit(m, 2) == Bit(n, 2) && Bit(m, 4) == Bit(n, 4) && Bit(m, 8) == Bit(n, 8)
    requires m / 16 == n / 16
    ensures m == n
  {
    Bits(m);
    Bits(n);
  }

  lemma SmallHigh(n: nat)
    requires n < 256
    ensures n / 16 / 16 == 0
  {
  }

  lemma ExtendKeepsBytes(a: byte, b: byte)
    requires SignExtend(a) == SignExtend(b)
    ensures a == b
  {
    hide Word, Bit;
    var l, h, m, k := a as nat, a as nat / 16, b as nat, b as nat / 16;
    WordKeepsBits(Bit(l, 1), Bit(l, 2), Bit(l, 4), Bit(l, 8), Bit(h, 1), Bit(h, 2), Bit(h, 4), Bit(h, 8),
                  Bit(m, 1), Bit(m, 2), Bit(m, 4), Bit(m, 8), Bit(k, 1), Bit(k, 2), Bit(k, 4), Bit(k, 8));
    SmallHigh(l);
    SmallHigh(m);
    FourBits(h, k);
    FourBits(l, m);
  }

  ghost function Less(y: bv32, w: bv32): bv32 { y - w }

  lemma Unadded(h: bv32, w: bv32)
    ensures Less(h + w, w) == h && Less(h + w, h) == w
  {
  }

  lemma PlusKeeps(h1: bv32, w1: bv32, h2: bv32, w2: bv32)
    requires Plus(h1, w1) == Plus(h2, w2)
    ensures h1 == h2 <==> w1 == w2
  {
    hide Less;
    Unadded(h1, w1);
    Unadded(h2, w2);
  }

  lemma TurnKeepsWords(h1: bv32, h2: bv32, b: byte)
    requires Turn(h1, b) == Turn(h2, b)
    ensures h1 == h2
  {
    hide Plus, Add10, Xor6, SignExtend;
    Xor6Keeps(Add10(Plus(h1, SignExtend(b))), Add10(Plus(h2, SignExtend(b))));
    Add10Keeps(Plus(h1, SignExtend(b)), Plus(h2, SignExtend(b)));
    PlusKeeps(h1, SignExtend(b), h2, SignExtend(b));
  }

  lemma TurnKeepsBytes(h: bv32, b1: byte, b2: byte)
    requires Turn(h, b1) == Turn(h, b2)
    ensures b1 == b2
  {
    hide Plus, Add10, Xor6, SignExtend;
    Xor6Keeps(Add10(Plus(h, SignExtend(b1))), Add10(Plus(h, SignExtend(b2))));
    Add10Keeps(Plus(h, SignExtend(b1)), Plus(h, SignExtend(b2)));
    PlusKeeps(h, SignExtend(b1), h, SignExtend(b2));
    ExtendKeepsBytes(b1, b2);
  }

  lemma FinishedKeepsWords(h1: bv32, h2: bv32)
    requires Finished(h1) == Finished(h2)
    ensures h1 == h2
  {
    hide Add3, Add15, Xor11;
    Add15Keeps(Xor11(Add3(h1)), Xor11(Add3(h2)));
    Xor11Keeps(Add3(h1), Add3(h2));
    Add3Keeps(h1, h2);
  }

  lemma {:induction false} OneByteMixes(a: Key, b: Key, i: nat)
    requires i < |a| == |b| && a[i] != b[i] && forall j :: 0 <= j < |a| && j != i ==> a[j] == b[j]
    ensures Mixed(a) != Mixed(b)
    decreases |a|
  {
    hide Turn;
    var n := |a| - 1;
    if i == n {
      assert a[..n] == b[..n];
      if Mixed(a) == Mixed(b) { TurnKeepsBytes(Mixed(a[..n]), a[n], b[n]); }
    } else {
      OneByteMixes(a[..n], b[..n], i);
      if Mixed(a) == Mixed(b) { TurnKeepsWords(Mixed(a[..n]), Mixed(b[..n]), a[n]); }
    }
  }

  /** Two keys of one length that differ in exactly one byte never have the same hash. */
  lemma OneByteMatters(a: Key, b: Key, i: nat)
    requires i < |a| == |b| && a[i] != b[i] && forall j :: 0 <= j < |a| && j != i ==> a[j] == b[j]
    ensures HashOf(a) != HashOf(b)
  {
    hide Finished;
    OneByteMixes(a, b, i);
    if HashOf(a) == HashOf(b) { FinishedKeepsWords(Mixed(a), Mixed(b)); }
  }

  // ---------- buckets and locks ----------

  /** hashsize: the number of buckets, and of locks. */
  function HashSize(power: nat): nat { Pow2(power) }

  /** The bucket of a hash: masking with 2^power - 1 keeps the remainder by 2^power. */
  function Masked(hash: bv32, power: nat): nat { (hash as nat) % HashSize(power) }

  /** The lock of a hash: the bucket, reduced by the number of locks. */
  function LockIndex(hash: bv32, power: nat, locks: nat): nat
    requires locks > 0
  {
    Masked(hash, power) % locks
  }

  lemma Remains(x: nat, n: nat)
    requires n > 0
    ensures x % n < n && (x % n) % n == x % n
  {
  }

  /**
   * With one lock for each bucket, two keys share a lock exactly when they share a bucket, and the index of the lock is
   * that of the bucket.
   */
  lemma LockIsBucket(k1: Key, k2: Key, power: nat)
    ensures Masked(HashOf(k1), power) < HashSize(power)
    ensures LockIndex(HashOf(k1), power, HashSize(power)) == Masked(HashOf(k1), power)
    ensures LockIndex(HashOf(k1), power, HashSize(power)) == LockIndex(HashOf(k2), power, HashSize(power))
       <==> Masked(HashOf(k1), power) == Masked(HashOf(k2), power)
  {
    hide HashOf, Pow2;
    Remains(HashOf(k1) as nat, HashSize(power));
    Remains(HashOf(k2) as nat, HashSize(power));
  }

  /** The lock an operation takes for its key when there is one for each bucket: that of the bucket of the key. */
  method HashLock(key: Key, power: nat) returns (lock: nat)
    ensures lock == Masked(HashOf(key), power) < HashSize(power)
  {
    hide HashOf, Pow2;
    var hash := Hash(key);
    lock := LockIndex(hash, power, HashSize(power));
    LockIsBucket(key, key, power);
  }

  /**
   * The store as the program starts it: 2^power buckets under this hash, and one page for each class but the last. The
   * program exits when a page cannot be had.
   */
  method NewStore(
      limit: nat, chunkSize: nat, itemSizeMax: nat, power: nat, reallocOk: nat -> bool, mallocOk: nat -> bool)
    returns (store: LruList, ok: bool)
    requires HEADER + chunkSize < UINT32 && itemSizeMax < UINT32 - 16
    ensures fresh(store) && fresh(store.slab) && fresh(store.table) && fresh(store.queues) && fresh(store.slab.chunks)
    ensures store.Valid() && store.table.keyOf == map[] && store.Abs() == State(map[], 0) && store.ready == {}
    ensures store.clock == 0
    ensures |store.slab.pages| == store.slab.powerLargest + 1 && store.slab.powerLargest < POWER_LARGEST
    ensures store.slab.memLimit == limit && forall k :: store.table.bucketOf(k) == Masked(HashOf(k), power)
    ensures ok ==> forall c {:trigger store.slab.pages[c]} :: 0 <= c < |store.slab.pages| ==>
              store.slab.pages[c] == if 1 <= c < store.slab.powerLargest && c <= POWER_LARGEST then 1 else 0
    ensures (forall c :: reallocOk(c) && mallocOk(c)) && itemSizeMax < INT32 ==> ok
  {
    hide LruList.Valid, HashOf, Masked, HashSize;
    var bucketOf := (k: Key) => Masked(HashOf(k), power);
    forall k ensures bucketOf(k) < HashSize(power) {
      LockIsBucket(k, k, power);
    }
    store := new LruList(limit, chunkSize, itemSizeMax, bucketOf, HashSize(power));
    ok := store.Preallocate(POWER_LARGEST, reallocOk, mallocOk);
  }
}
