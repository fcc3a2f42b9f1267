/**
 * Lines of the store that do not do what the code around them relies on, written out literally on values. Each has an
 * input on which it goes wrong and the exact condition under which it does what the repaired model does. (Two more are
 * beside their repaired versions: HashDeleteAsWritten and ItemUnlinkQAsWritten.)
 */
module AsWritten {
  import opened Layout
  import opened CacheSpec
  import opened Pictures

  // ---------- do_item_remove: the count before the decrement is compared with 0 ----------

  /** item_free lets an item go only when it is not linked and nobody counts on it. */
  predicate MayFree(linked: bool, refcount: nat) { !linked && refcount == 0 }

  /** What do_item_remove leaves of the 32-bit count, and whether the chunk goes back. */
  function RemoveAsWritten(linked: bool, refcount: nat): (nat, bool) {
    (Sub32(refcount, 1), refcount == 0 && MayFree(linked, Sub32(refcount, 1)))
  }

  function RemoveIntended(linked: bool, refcount: nat): (nat, bool) {
    (Sub32(refcount, 1), refcount == 1 && MayFree(linked, Sub32(refcount, 1)))
  }

  /** As written no chunk ever goes back: when the test succeeds the count has just wrapped to 2^32 - 1. */
  lemma RemoveAsWrittenNeverFrees(linked: bool, refcount: nat)
    requires refcount < UINT32
    ensures !RemoveAsWritten(linked, refcount).1
    ensures refcount == 0 ==> RemoveAsWritten(linked, refcount).0 == UINT32 - 1
  {
  }

  /** It is right exactly when the reference is not the last one, or the item is still linked. */
  lemma RemoveIsRightIff(linked: bool, refcount: nat)
    requires refcount < UINT32
    ensures RemoveAsWritten(linked, refcount) == RemoveIntended(linked, refcount) <==> refcount != 1 || linked
  {
  }

  // ---------- do_item_alloc: what the scan does with an item whose bucket it has locked ----------

  /**
   * As written the count before the increment is compared with 2, and `it = search` hangs on
   * `if (search->exptime != 0)`,
   * so that for an item that never expires `it` is still null when it is followed.
   */
  function PickAsWritten(refcount: nat, exptime: nat, now: nat, slabOk: bool, evictToFree: bool): Pick {
    if refcount != 2 then Skip
    else if exptime != 0 && exptime < now then Reuse
    else if slabOk then Chunk
    else if !evictToFree then Nothing
    else if exptime != 0 then Reuse
    else Fault
  }

  /** An item nobody holds is passed over, and one that a client holds is taken from under it, or faults. */
  lemma PickGoesWrong(now: nat)
    ensures PickAsWritten(1, 0, now, false, true) == Skip && PickFor(1, 0, now, false, true) == Reuse
    ensures PickAsWritten(2, 0, now, false, true) == Fault && PickFor(2, 0, now, false, true) == Skip
  {
  }

  /** The scan does what is meant exactly when the count is neither 1 nor 2. */
  lemma PickIsRightIff(refcount: nat, exptime: nat, now: nat, slabOk: bool, evictToFree: bool)
    ensures PickAsWritten(refcount, exptime, now, slabOk, evictToFree) ==
              PickFor(refcount, exptime, now, slabOk, evictToFree)
       <==> refcount != 1 && refcount != 2
    ensures PickAsWritten(refcount, exptime, now, slabOk, evictToFree) == Fault
       <==> refcount == 2 && exptime == 0 && !slabOk && evictToFree
  {
  }

  // ---------- do_store_item: CAS of an absent key ----------

  /** A null pointer is followed, or there is a reply. */
  datatype Effect = Crash | Reply(outcome: Outcome)

  /** The branches of do_store_item, each test in the order of the code; None stands for a null old item. */
  function DecideAsWritten(cmd: Cmd, prior: Option<Entry>, o: Offer, room: bool): Effect {
    if prior.Some? && cmd == Add then Reply(NotStored)
    else if prior.None? && (cmd == Replace || cmd == Append || cmd == Prepend) then Reply(NotStored)
    else if cmd == Cas then
      if prior.None? then Crash
      else if o.expects == prior.value.cas then Reply(Stored)
      else Reply(Exists)
    else if cmd == Append || cmd == Prepend then
      if prior.None? then Crash
      else if o.expects != prior.value.cas then Reply(Exists)
      else if !room then Reply(NotStored)
      else Reply(Stored)
    else Reply(Stored)
  }

  /** A CAS of a key that is not bound follows a null pointer. */
  lemma CasOfAbsentCrashes(o: Offer, room: bool)
    ensures DecideAsWritten(Cas, None, o, room) == Crash
  {
  }

  /** The code gives the reply of the table exactly when it is not a CAS of an absent key. */
  lemma DecideIsRightIff(cmd: Cmd, prior: Option<Entry>, o: Offer, room: bool)
    ensures DecideAsWritten(cmd, prior, o, room) == Reply(OutcomeOf(Decide(cmd, prior, o, room)))
           <==> !(cmd == Cas && prior.None?)
  {
  }

  // ---------- do_item_alloc: the class of a new item is never written ----------

  /**
   * The class field of every item allocated so far, whether it is linked, the sizes of the LRU lists, and how many
   * chunks have come back to each class.
   */
  datatype Lists = Lists(clsid: seq<nat>, linked: seq<bool>, sizes: seq<nat>, back: seq<nat>)

  datatype Act = Alloc(id: nat) | Link(i: nat) | Unlink(i: nat) | Free(i: nat)

  ghost predicate WellFormed(l: Lists) {
    && |l.clsid| == |l.linked| && |l.sizes| == |l.back| == POWER_LARGEST
    && forall i :: 0 <= i < |l.clsid| ==> l.clsid[i] < POWER_LARGEST
  }

  /**
   * do_item_alloc leaves slabs_clsid as slabs_free or memset left it, which is 0; item_link_q files the item under it,
   * and item_free hands the chunk to the class it says, which slabs_free refuses for class 0.
   */
  function Perform(l: Lists, a: Act, stamped: bool): Lists {
    match a
    case Alloc(id) =>
      if id < POWER_LARGEST then l.(clsid := l.clsid + [if stamped then id else 0], linked := l.linked + [false]) else l
    case Link(i) =>
      if i < |l.clsid| && i < |l.linked| && !l.linked[i] && l.clsid[i] < |l.sizes|
      then l.(linked := l.linked[i := true], sizes := l.sizes[l.clsid[i] := l.sizes[l.clsid[i]] + 1]) else l
    case Unlink(i) =>
      if i < |l.clsid| && i < |l.linked| && l.linked[i] && l.clsid[i] < |l.sizes| && l.sizes[l.clsid[i]] > 0
      then l.(linked := l.linked[i := false], sizes := l.sizes[l.clsid[i] := l.sizes[l.clsid[i]] - 1]) else l
    case Free(i) =>
      if i < |l.clsid| && i < |l.linked| && !l.linked[i] && POWER_SMALLEST <= l.clsid[i] < |l.back|
      then l.(clsid := l.clsid[i := 0], back := l.back[l.clsid[i] := l.back[l.clsid[i]] + 1]) else l
  }

  function Acts(l: Lists, run: seq<Act>, stamped: bool): Lists
    decreases |run|
  {
    if run == [] then l else Perform(Acts(l, run[..|run| - 1], stamped), run[|run| - 1], stamped)
  }

  function Fresh(): Lists { Lists([], [], seq(POWER_LARGEST, _ => 0), seq(POWER_LARGEST, _ => 0)) }

  /**
   * As written, after any run every item is in list 0 and the lists of all real classes are empty. So the scan of
   * do_item_alloc, which starts at the tail of the list of the class it wants, never finds anything to evict; and
   * since slabs_free refuses class 0, no chunk ever comes back to its free list.
   */
  lemma {:induction false} EvictionIsDead(run: seq<Act>)
    ensures var l := Acts(Fresh(), run, false);
            && WellFormed(l)
            && (forall i :: 0 <= i < |l.clsid| ==> l.clsid[i] == 0)
            && (forall c :: 0 < c < |l.sizes| ==> l.sizes[c] == 0)
            && (forall c :: 0 <= c < |l.back| ==> l.back[c] == 0)
    decreases |run|
  {
    if run != [] { EvictionIsDead(run[..|run| - 1]); }
  }

  /**
   * With the class stamped, an item that is linked is on the list where the scan of its class looks, and a freed
   * chunk comes back.
   */
  lemma StampedIsFound(l: Lists, id: nat)
    requires WellFormed(l) && 0 < id < POWER_LARGEST
    ensures var i := |l.clsid|;
            Perform(Perform(l, Alloc(id), true), Link(i), true).sizes == l.sizes[id := l.sizes[id] + 1]
    ensures var i := |l.clsid|;
            Perform(Perform(l, Alloc(id), false), Link(i), false).sizes == l.sizes[0 := l.sizes[0] + 1]
    ensures var i := |l.clsid|;
            && Perform(Perform(l, Alloc(id), true), Free(i), true).back == l.back[id := l.back[id] + 1]
            && Perform(Perform(l, Alloc(id), false), Free(i), false).back == l.back
  {
  }
}
