/** Copying bytes: memcpy and memset, and the layout of a chunk that an append or prepend fills in. */
module Bytes {
  import opened Layout
  import opened CacheSpec

  /** a with the bytes from position `at` on replaced by src. */
  ghost function Patched(a: seq<byte>, at: nat, src: seq<byte>): (r: seq<byte>)
    requires at + |src| <= |a|
    ensures |r| == |a|
  {
    a[..at] + src + a[at + |src|..]
  }

  /** memcpy: the bytes of src, and nothing else, change. */
  method Memcpy(dst: array<byte>, at: nat, src: seq<byte>)
    requires at + |src| <= dst.Length
    modifies dst
    ensures dst[..] == Patched(old(dst[..]), at, src)
  {
    for i := 0 to |src|
      invariant forall j :: 0 <= j < i ==> dst[at + j] == src[j]
      invariant forall j :: 0 <= j < dst.Length && !(at <= j < at + i) ==> dst[j] == old(dst[j])
    {
      dst[at + i] := src[i];
    }
  }

  /** memset of the first n bytes to zero. */
  method Clear(dst: array<byte>, n: nat)
    requires n <= dst.Length
    modifies dst
    ensures forall j :: 0 <= j < n ==> dst[j] == 0
    ensures forall j :: n <= j < dst.Length ==> dst[j] == old(dst[j])
  {
    for i := 0 to n
      invariant forall j :: 0 <= j < i ==> dst[j] == 0
      invariant forall j :: i <= j < dst.Length ==> dst[j] == old(dst[j])
    {
      dst[i] := 0;
    }
  }

  /** The data of an item: its key, one separator, its value, and whatever the chunk held behind them. */
  ghost predicate Holds(data: seq<byte>, key: Key, value: Blob) {
    && |key| + 1 + |value| <= |data|
    && data[..|key|] == key && data[|key|] == 48
    && data[|key| + 1..|key| + 1 + |value|] == value
  }

  lemma JoinSize(cmd: Cmd, prior: Blob, add: Blob)
    requires Joins(cmd) && |prior| >= 2 && |add| >= 2
    ensures Join(cmd, prior, add) == if cmd == Append then Trim(prior) + add else Trim(add) + prior
    ensures |Join(cmd, prior, add)| == |prior| + |add| - 2
  {
  }

  /** A chunk that got its key and separator first and its value then, and nothing else. */
  lemma Composed(was: seq<byte>, named: seq<byte>, now: seq<byte>, key: Key, value: Blob)
    requires |now| == |named| == |was| >= |key| + 1 + |value| && named == Patched(was, 0, key)[|key| := 48]
    requires now[..|key| + 1] == named[..|key| + 1] && now[|key| + 1..|key| + 1 + |value|] == value
    requires now[|key| + 1 + |value|..] == named[|key| + 1 + |value|..]
    ensures Holds(now, key, value) && now[|key| + 1 + |value|..] == was[|key| + 1 + |value|..]
  {
    var n := |key| + 1;
    assert now[..|key|] == now[..n][..|key|] == named[..n][..|key|] == key;
    assert now[|key|] == now[..n][|key|] == named[..n][|key|] == 48;
  }

  /** The second copy overwrites the last two bytes of the first. */
  lemma Overlaid(a: seq<byte>, at: nat, first: Blob, second: Blob)
    requires |first| >= 2 && |second| >= 2 && at + |first| + |second| - 2 <= |a|
    ensures var b := Patched(Patched(a, at, first), at + |first| - 2, second);
            var n := |first| + |second| - 2;
            && b[..at] == a[..at] && b[at + n..] == a[at + n..]
            && b[at..at + n] == Trim(first) + second
  {
  }

  /** The two copies into the value: the second starts where the line end of the first does. */
  method CopyTwo(data: array<byte>, at: nat, first: Blob, second: Blob)
    requires |first| >= 2 && |second| >= 2 && at + |first| + |second| - 2 <= data.Length
    modifies data
    ensures data[..][..at] == old(data[..])[..at]
    ensures data[..][at..at + (|first| + |second| - 2)] == Trim(first) + second
    ensures data[..][at + (|first| + |second| - 2)..] == old(data[..])[at + (|first| + |second| - 2)..]
  {
    Overlaid(data[..], at, first, second);
    Memcpy(data, at, first);
    Memcpy(data, at + |first| - 2, second);
  }

  /**
   * The copying of do_store_item into the new item. `data` is the chunk behind its header. Both blobs stay inside the
   * nbytes of the new item, which stays inside the chunk; the line end of the blob in front is overwritten; and nothing
   * behind the new item is touched.
   */
  method CopyJoined(data: array<byte>, key: Key, cmd: Cmd, prior: Blob, add: Blob)
    requires Joins(cmd) && |prior| >= 2 && |add| >= 2
    requires HEADER + data.Length >= ItemTotal(key, Join(cmd, prior, add))
    modifies data
    ensures Holds(data[..], key, Join(cmd, prior, add))
    ensures data[..][|key| + 1 + |Join(cmd, prior, add)|..] == old(data[..])[|key| + 1 + |Join(cmd, prior, add)|..]
  {
    hide Patched, Holds, Join;
    var at := |key| + 1;
    JoinSize(cmd, prior, add);
    ghost var was := data[..];
    Memcpy(data, 0, key);
    data[|key|] := 48;
    ghost var named := data[..];
    assert named == Patched(was, 0, key)[|key| := 48];
    if cmd == Append {
      CopyTwo(data, at, prior, add);
    } else {
      CopyTwo(data, at, add, prior);
    }
    Composed(was, named, data[..], key, Join(cmd, prior, add));
  }
}
