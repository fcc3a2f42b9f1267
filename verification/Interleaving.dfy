/**
 * Any number of threads running the store's operations, interleaved at every lock operation and every access to
 * shared data. Locks: one per bucket, cache_lock, slabs_lock. A thread's remaining work is a list of instructions
 * that grows when a branch of the source is decided; the decisions a thread cannot control (clock, reference counts
 * of other threads, the item under the scan) come from a Choice.
 */
module Interleaving {
  import opened Layout
  import opened CacheSpec

  /** How the eviction scan treats the item it looks at, slab.cpp 590-648. */
  datatype Act = Pass | Skip | Repair | Expire | Fresh | Evict | Full

  datatype Role = Lazy | Own | Replacing

  /**
   * An item by what the step model knows of it: the id it was linked under, the id this operation's own link gave it,
   * or never linked at all, and then only its class matters.
   */
  datatype Who = Item(cas: nat) | Built | Never(cls: nat)

  datatype Instr =
    | LockBucket(b: nat) | UnlockBucket(b: nat)
    | LockCache | UnlockCache
    | LockSlabs | UnlockSlabs
    | Find                                                // hash_find and the branches that hang on it
    | Cut(key: Key, cas: nat, role: Role)              // if still linked: hash_delete, item_unlink_q
    | Link(value: Blob, exptime: nat, flag: ItemFlag)     // stamp an id, hash_insert, item_link_q
    | LinkRefused                                         // do_item_link on a dirty flag byte
    | Refused                                             // do_store_item falls through without storing
    | Bump                                                // item_unlink_q, item_link_q
    | SetExptime(exptime: nat)
    | Release(who: Who)                                   // do_item_remove: the count may reach zero
    | CheckEnds(item: Who)                                // item_free compares the item with heads[] and tails[]
    | FreeList                                            // pop, push or adjust under slabs_lock
    | Scan(left: nat)                                     // eviction scan, `left` nodes before the head

  datatype Code = Done | Do(head: Instr, tail: Code)

  /** `room` and `reach` say whether the append's allocation will succeed and how far its scan can walk. */
  datatype Op =
    | GetOp(key: Key)
    | TouchOp(key: Key, exptime: nat)
    | UpdateOp(key: Key)
    | ReleaseOp(key: Key, who: Who)
    | DeleteOp(key: Key, cas: nat)
    | StoreOp(key: Key, cmd: Cmd, offer: Offer, room: bool, reach: nat)
    | AllocOp(key: Key, reach: nat)

  datatype Choice = Choice(now: nat, frees: bool, bumps: bool, takes: bool, key: Key, act: Act, ends: set<nat>)

  datatype Held = Held(own: Option<nat>, probe: Option<nat>, cache: bool, slabs: bool)
  const NOTHING := Held(None, None, false, false)

  /** What a thread knows about the binding of its own key. */
  datatype Slot = Unknown | Known(prior: Option<Entry>) | Window(taken: Entry) | Settled

  datatype Thread = Thread(op: Op, code: Code, held: Held, slot: Slot, reply: Option<Outcome>, made: nat)

  /**
   * `ends` holds the ids of the items that are head or tail of their list; `cls` is the class of the item that an id
   * was given to. `hidden` is an auxiliary variable: entries a replace has unlinked and not yet linked a successor for.
   */
  datatype Sys = Sys(
    hash: Key -> nat, cls: nat -> nat,
    store: State, hidden: View, ends: set<nat>,
    buckets: map<nat, nat>, cache: Option<nat>, slabs: Option<nat>,
    threads: seq<Thread>)

  // ---------- the code of the operations ----------

  function FreePlan(k: Code): Code { Do(LockSlabs, Do(FreeList, Do(UnlockSlabs, k))) }

  function UnlinkPlan(key: Key, cas: nat, role: Role, k: Code): Code {
    Do(LockCache, Do(Cut(key, cas, role), Do(Release(Item(cas)), Do(UnlockCache, k))))
  }

  function AllocPlan(reach: nat, k: Code): Code { Do(LockCache, Do(Scan(reach), Do(UnlockCache, k))) }

  /** do_item_link: a dirty flag byte is refused before any lock is taken. */
  function LinkPlan(value: Blob, exptime: nat, flag: ItemFlag, k: Code): Code {
    if flag.Dirty() then Do(LinkRefused, k)
    else Do(LockCache, Do(Link(value, exptime, flag), Do(UnlockCache, k)))
  }

  /** do_store_item after its do_item_get. */
  function StorePlan(op: Op, prior: Option<Entry>, bumps: bool, k: Code): Code
    requires op.StoreOp?
  {
    var drop := if prior.Some? then Do(Release(Item(prior.value.cas)), k) else k;
    match Decide(op.cmd, prior, op.offer, op.room)
    case Refuse(_) =>
      if op.cmd == Add && bumps then Do(LockCache, Do(Bump, Do(UnlockCache, Do(Refused, drop))))
      else if Joins(op.cmd) && prior.Some? && op.offer.expects == prior.value.cas then
        AllocPlan(op.reach, Do(Refused, drop))
      else Do(Refused, drop)
    case Put(v, x, f) =>
      var last := if Joins(op.cmd) then Do(Release(Built), drop) else drop;
      var link := LinkPlan(v, x, f, last);
      var swap := if prior.Some? then UnlinkPlan(op.key, prior.value.cas, Replacing, link) else link;
      if Joins(op.cmd) then AllocPlan(op.reach, swap) else swap
  }

  /** What follows do_item_get, with its result in hand. */
  function AfterGet(op: Op, prior: Option<Entry>, bumps: bool, k: Code): Code {
    match op
    case TouchOp(_, x) => if prior.Some? then Do(SetExptime(x), k) else k
    case StoreOp(_, _, _, _, _) => StorePlan(op, prior, bumps, k)
    case _ => k
  }

  function Visible(found: Option<Entry>, now: nat): Option<Entry> {
    if found.Some? && Expired(found.value, now) then None else found
  }

  /** do_item_get: an expired item is unlinked and released on the way. */
  function GetPlan(op: Op, found: Option<Entry>, now: nat, bumps: bool, k: Code): Code {
    var next := AfterGet(op, Visible(found, now), bumps, k);
    if found.Some? && Expired(found.value, now)
    then UnlinkPlan(op.key, found.value.cas, Lazy, Do(Release(Item(found.value.cas)), next))
    else next
  }

  function StartPlan(hash: Key -> nat, op: Op): Code {
    var b := hash(op.key);
    var leave := Do(UnlockBucket(b), Done);
    match op
    case UpdateOp(_) => Do(LockBucket(b), Do(LockCache, Do(Bump, Do(UnlockCache, leave))))
    case ReleaseOp(_, who) => Do(LockBucket(b), Do(Release(who), leave))
    case DeleteOp(k, id) => Do(LockBucket(b), UnlinkPlan(k, id, Own, leave))
    case AllocOp(_, reach) => AllocPlan(reach, Done)
    case _ => Do(LockBucket(b), Do(Find, leave))
  }

  /** One turn of the scan once the try_lock on the item's bucket has succeeded. */
  function ProbePlan(act: Act, key: Key, cas: nat, b: nat, left: nat, k: Code): Code {
    match act
    case Repair => Do(Cut(key, cas, Lazy), Do(Release(Item(cas)), Do(UnlockBucket(b), Do(Scan(left), k))))
    case Expire => FreePlan(Do(Cut(key, cas, Lazy), Do(Release(Item(cas)), Do(UnlockBucket(b), k))))
    case Evict => FreePlan(FreePlan(Do(Cut(key, cas, Lazy), Do(Release(Item(cas)), Do(UnlockBucket(b), k)))))
    case Fresh => FreePlan(Do(UnlockBucket(b), k))
    case Full => FreePlan(Do(UnlockBucket(b), k))
    case _ => Do(UnlockBucket(b), Do(Scan(left), k))
  }

  // ---------- steps ----------

  predicate Enabled(s: Sys, i: nat) {
    i < |s.threads| && s.threads[i].code.Do? &&
    match s.threads[i].code.head
    case LockBucket(b) => b !in s.buckets
    case LockCache => s.cache.None?
    case LockSlabs => s.slabs.None?
    case _ => true
  }

  function Bound(s: Sys, key: Key, cas: nat): bool {
    key in s.store.view && s.store.view[key].cas == cas
  }

  function With(s: Sys, i: nat, t: Thread): Sys
    requires i < |s.threads|
  {
    s.(threads := s.threads[i := t])
  }

  function Ids(v: View): set<nat> { set k | k in v :: v[k].cas }

  /** The item is not linked, nor can it be linked under this id again. */
  predicate Loose(s: Sys, who: Who) {
    who.Item? ==> who.cas <= s.store.lastCas && who.cas !in Ids(s.store.view)
  }

  /** What item_free finds: the item is head or tail of its list. */
  predicate IsEnd(s: Sys, who: Who) { who.Item? && who.cas in s.ends }

  /** The list ends after a change under cache_lock: whichever linked items they are. */
  function Ended(s: Sys, ends: set<nat>): Sys { s.(ends := ends * Ids(s.store.view)) }

  /** The data an unlink changes. */
  function CutData(s: Sys, key: Key, cas: nat, role: Role): Sys {
    if !Bound(s, key, cas) then s
    else
      s.(store := s.store.(view := Without(s.store.view, key)),
         hidden := if role == Replacing then s.hidden[key := s.store.view[key]] else s.hidden)
  }

  /** The data a link, a refused link or a touch changes. */
  function LinkData(s: Sys, key: Key, x: Instr): Sys {
    match x
    case Link(v, e, f) => s.(store := Bind(s.store, key, v, e, f), hidden := Without(s.hidden, key))
    case LinkRefused => s.(hidden := Without(s.hidden, key))
    case SetExptime(e) => s.(store := Apply(s.store, Touch(key, e)))
    case _ => s
  }

  function Step(s: Sys, i: nat, ch: Choice): Sys
    requires Enabled(s, i)
  {
    var t := s.threads[i];
    var h := t.held;
    var next := t.(code := t.code.tail);
    match t.code.head
    case LockBucket(b) => With(s.(buckets := s.buckets[b := i]), i, next.(held := h.(own := Some(b))))
    case UnlockBucket(b) =>
      var freed := s.(buckets := s.buckets - {b});
      if h.probe == Some(b) then With(freed, i, next.(held := h.(probe := None)))
      else With(freed, i, next.(held := h.(own := None)))
    case LockCache => With(s.(cache := Some(i)), i, next.(held := h.(cache := true)))
    case UnlockCache => With(s.(cache := None), i, next.(held := h.(cache := false)))
    case LockSlabs => With(s.(slabs := Some(i)), i, next.(held := h.(slabs := true)))
    case UnlockSlabs => With(s.(slabs := None), i, next.(held := h.(slabs := false)))
    case Find =>
      var found := Lookup(s.store.view, t.op.key);
      With(s, i, t.(code := GetPlan(t.op, found, ch.now, ch.bumps, t.code.tail), slot := Known(found)))
    case Cut(key, cas, role) =>
      With(Ended(CutData(s, key, cas, role), ch.ends), i,
           if !Bound(s, key, cas) || role == Own then next
           else if role == Replacing then next.(slot := Window(s.store.view[key]))
           else if key == t.op.key && h.own.Some? then next.(slot := Known(None)) else next)
    case Link(_, _, _) =>
      var id := s.store.lastCas + 1;
      With(Ended(LinkData(s, t.op.key, t.code.head), ch.ends + {id}), i,
          next.(slot := Settled, reply := Some(Stored), made := id))
    case LinkRefused => With(LinkData(s, t.op.key, t.code.head), i, next.(slot := Settled, reply := Some(Stored)))
    case Refused =>
      With(s, i, next.(slot := Settled, reply := Some(
        if t.op.StoreOp? && t.slot.Known? then OutcomeOf(Decide(t.op.cmd, t.slot.prior, t.op.offer, t.op.room))
            else NotStored)))
    case SetExptime(_) =>
      With(LinkData(s, t.op.key, t.code.head), i, next.(slot := Settled))
    case Bump => With(Ended(s, ch.ends), i, next)
    case FreeList => With(s, i, next)
    case Release(who) =>
      var item := if who.Built? then Item(t.made) else who;
      With(s, i, if ch.frees && Loose(s, item) then t.(code := Do(CheckEnds(item), t.code.tail)) else next)
    case CheckEnds(item) => With(s, i, if IsEnd(s, item) then next else t.(code := FreePlan(t.code.tail)))
    case Scan(left) =>
      if left == 0 then With(s, i, if ch.takes then t.(code := FreePlan(t.code.tail)) else next)
      else if ch.act == Pass || ch.key !in s.store.view || s.hash(ch.key) in s.buckets
      then With(s, i, t.(code := Do(Scan(left - 1), t.code.tail)))
      else
        var b := s.hash(ch.key);
        With(s.(buckets := s.buckets[b := i]), i,
             t.(held := h.(probe := Some(b)),
                code := ProbePlan(ch.act, ch.key, s.store.view[ch.key].cas, b, left - 1, t.code.tail)))
  }

  /** A thread with nothing left to do takes up a new operation. */
  function Begin(s: Sys, i: nat, op: Op): Sys
    requires i < |s.threads|
  {
    With(s, i, Thread(op, StartPlan(s.hash, op), NOTHING, Unknown, None, 0))
  }

  // ---------- lock discipline as a property of code ----------

  datatype Ctx = Ctx(held: Held, slot: Slot)

  function Prior(slot: Slot): Option<Entry> {
    match slot
    case Known(o) => o
    case Window(e) => Some(e)
    case _ => None
  }

  /**
   * The context after an instruction, or None where the instruction would break a rule: locks are taken in the order
   * bucket, cache_lock, slabs_lock, and every access is made under the lock that guards it.
   */
  function After(hash: Key -> nat, op: Op, c: Ctx, x: Instr): Option<Ctx> {
    var h := c.held;
    var decided := op.StoreOp? && (c.slot.Known? || c.slot.Window?);
    var mine := h.own == Some(hash(op.key));
    match x
    case LockBucket(b) =>
      if h == NOTHING && c.slot.Unknown? && b == hash(op.key) then Some(c.(held := h.(own := Some(b)))) else None
    case UnlockBucket(b) =>
      if h.probe == Some(b) && h.cache && !h.slabs then Some(c.(held := h.(probe := None)))
      else if h == NOTHING.(own := Some(b)) && !c.slot.Window? then Some(c.(held := NOTHING))
      else None
    case LockCache => if !h.cache && !h.slabs && h.probe.None? then Some(c.(held := h.(cache := true))) else None
    case UnlockCache => if h.cache && !h.slabs && h.probe.None? then Some(c.(held := h.(cache := false))) else None
    case LockSlabs => if !h.slabs then Some(c.(held := h.(slabs := true))) else None
    case UnlockSlabs => if h.slabs then Some(c.(held := h.(slabs := false))) else None
    case Find => None
    case Cut(k, id, role) =>
      if !h.cache || h.slabs then None
      else if role == Lazy && h.probe == Some(hash(k)) then if c.slot.Settled? then None else Some(c)
      else if !mine || k != op.key then None
      else (match role
        case Lazy =>
          if c.slot.Known? && c.slot.prior.Some? && c.slot.prior.value.cas == id
          then Some(c.(slot := Known(None))) else None
        case Own => if op.DeleteOp? && c.slot.Unknown? then Some(c) else None
        case Replacing =>
          if decided && c.slot.Known? && c.slot.prior.Some? && c.slot.prior.value.cas == id
          then Some(c.(slot := Window(c.slot.prior.value))) else None)
    case Link(v, e, f) =>
      if mine && h.cache && decided && (c.slot.Known? ==> c.slot.prior.None?) && !f.Dirty() && op.offer.key == op.key
         && Decide(op.cmd, Prior(c.slot), op.offer, op.room) == Put(v, e, f)
      then Some(c.(slot := Settled)) else None
    case LinkRefused =>
      if mine && decided && (c.slot.Known? ==> c.slot.prior.None?) && op.offer.key == op.key
         && Decide(op.cmd, Prior(c.slot), op.offer, op.room).Put?
         && Decide(op.cmd, Prior(c.slot), op.offer, op.room).flag.Dirty()
      then Some(c.(slot := Settled)) else None
    case Refused =>
      if mine && decided && c.slot.Known? && op.offer.key == op.key
         && Decide(op.cmd, c.slot.prior, op.offer, op.room).Refuse?
      then Some(c.(slot := Settled)) else None
    case SetExptime(_) => if mine && op.TouchOp? && c.slot.Known? then Some(c.(slot := Settled)) else None
    case Bump => if h.cache && !h.slabs then Some(c) else None
    case FreeList => if h.slabs then Some(c) else None
    case Release(_) => if !h.slabs then Some(c) else None
    case CheckEnds(_) => None
    case Scan(_) => if h.cache && !h.slabs && h.probe.None? && !c.slot.Settled? then Some(c) else None
  }

  /**
   * The rest of a thread's code is safe to run from this context: no rule is ever broken, all locks are released at
   * the end and a store has settled on exactly one reply.
   */
  predicate Safe(hash: Key -> nat, op: Op, c: Ctx, code: Code)
    decreases code
  {
    match code
    case Done => c.held == NOTHING && !c.slot.Window? && (op.StoreOp? ==> c.slot.Settled?)
    case Do(x, k) =>
      if x.Find? then
        && c.held == NOTHING.(own := Some(hash(op.key))) && c.slot.Unknown?
        && k == Do(UnlockBucket(hash(op.key)), Done)
        && (op.GetOp? || op.TouchOp? || op.StoreOp?)
      else
        var n := After(hash, op, c, x);
        n.Some? && Safe(hash, op, n.value, k)
  }

  /** A store's key is the key of the item it offers. */
  predicate WellFormed(op: Op) { op.StoreOp? ==> op.offer.key == op.key }

  // ---------- the invariant ----------

  ghost predicate Holds(s: Sys, i: nat, b: nat) { b in s.buckets && s.buckets[b] == i }

  /** The locks a thread believes it holds are the locks it owns. */
  ghost predicate LocksAgree(s: Sys, i: nat)
    requires i < |s.threads|
  {
    var h := s.threads[i].held;
    && (forall b: nat :: Holds(s, i, b) <==> h.own == Some(b) || h.probe == Some(b))
    && (h.own.Some? ==> h.own != h.probe && h.own.value == s.hash(s.threads[i].op.key))
    && (h.cache <==> s.cache == Some(i))
    && (h.slabs <==> s.slabs == Some(i))
  }

  /** What a thread knows about its key is still so. */
  ghost predicate SlotAgrees(s: Sys, i: nat)
    requires i < |s.threads|
  {
    var t := s.threads[i];
    && (t.slot.Known? && t.held.own.Some? ==> Lookup(s.store.view, t.op.key) == t.slot.prior)
    && (t.held.own.Some? && !t.slot.Window? ==> t.op.key !in s.hidden)
    && (t.slot.Window? ==>
         && t.held.own.Some?
         && t.op.key !in s.store.view
         && Lookup(s.hidden, t.op.key) == Some(t.slot.taken))
  }

  /** A thread at item_free's check is about to free an item that is not linked; what follows is safe either way. */
  ghost predicate CodeOk(s: Sys, t: Thread) {
    if t.code.Do? && t.code.head.CheckEnds? then
      Loose(s, t.code.head.item) && !t.held.slabs && Safe(s.hash, t.op, Ctx(t.held, t.slot), t.code.tail)
    else Safe(s.hash, t.op, Ctx(t.held, t.slot), t.code)
  }

  ghost predicate ThreadOk(s: Sys, i: nat)
    requires i < |s.threads|
  {
    var t := s.threads[i];
    && WellFormed(t.op)
    && CodeOk(s, t)
    && LocksAgree(s, i)
    && SlotAgrees(s, i)
  }

  /** An entry is hidden only while a thread that holds its bucket is replacing it. */
  ghost predicate HiddenOk(s: Sys) {
    forall k :: k in s.hidden ==>
      && k !in s.store.view
      && s.hash(k) in s.buckets
      && s.buckets[s.hash(k)] < |s.threads|
      && s.threads[s.buckets[s.hash(k)]].slot.Window?
      && s.threads[s.buckets[s.hash(k)]].op.key == k
  }

  ghost predicate LocksOwned(s: Sys) {
    && (forall b :: b in s.buckets ==> s.buckets[b] < |s.threads|)
    && (s.cache.Some? ==> s.cache.value < |s.threads|)
    && (s.slabs.Some? ==> s.slabs.value < |s.threads|)
  }

  /** The store as a holder of the right bucket lock sees it: a replace in progress still shows the old entry. */
  function Abs(s: Sys): State { State(s.store.view + s.hidden, s.store.lastCas) }

  ghost predicate Inv(s: Sys) {
    && LocksOwned(s)
    && HiddenOk(s)
    && Sound(Abs(s)) && s.ends <= Ids(s.store.view)
    && forall i: nat :: i < |s.threads| ==> ThreadOk(s, i)
  }

  ghost predicate Init(s: Sys) {
    && s.store == State(map[], 0) && s.hidden == map[] && s.ends == {}
    && s.buckets == map[] && s.cache.None? && s.slabs.None?
    && forall i :: 0 <= i < |s.threads| ==>
         && s.threads[i].code.Done? && s.threads[i].held == NOTHING && s.threads[i].slot == Settled
         && WellFormed(s.threads[i].op)
  }

  // ---------- the plans are safe ----------

  lemma FreePlanSafe(hash: Key -> nat, op: Op, c: Ctx, k: Code)
    requires !c.held.slabs && Safe(hash, op, c, k)
    ensures Safe(hash, op, c, FreePlan(k))
  {
    var d := c.(held := c.held.(slabs := true));
    assert d.(held := d.held.(slabs := false)) == c;
    assert Safe(hash, op, d, Do(UnlockSlabs, k));
    assert Safe(hash, op, d, Do(FreeList, Do(UnlockSlabs, k)));
  }

  /** From a context that holds only the op's own bucket. */
  lemma UnlinkPlanSafe(hash: Key -> nat, op: Op, c: Ctx, id: nat, role: Role, k: Code)
    requires c.held == NOTHING.(own := Some(hash(op.key)))
    requires After(hash, op, c.(held := c.held.(cache := true)), Cut(op.key, id, role)).Some?
    requires var n := After(hash, op, c.(held := c.held.(cache := true)), Cut(op.key, id, role)).value;
             Safe(hash, op, n.(held := c.held), k)
    ensures Safe(hash, op, c, UnlinkPlan(op.key, id, role, k))
  {
    var d := c.(held := c.held.(cache := true));
    var n := After(hash, op, d, Cut(op.key, id, role)).value;
    assert n.held == d.held;
    assert n.(held := n.held.(cache := false)) == n.(held := c.held);
    assert Safe(hash, op, n, Do(UnlockCache, k));
    assert Safe(hash, op, n, Do(Release(Item(id)), Do(UnlockCache, k)));
    assert Safe(hash, op, d, Do(Cut(op.key, id, role), Do(Release(Item(id)), Do(UnlockCache, k))));
  }

  lemma AllocPlanSafe(hash: Key -> nat, op: Op, c: Ctx, reach: nat, k: Code)
    requires !c.held.cache && !c.held.slabs && c.held.probe.None? && !c.slot.Settled? && Safe(hash, op, c, k)
    ensures Safe(hash, op, c, AllocPlan(reach, k))
  {
    var d := c.(held := c.held.(cache := true));
    assert d.(held := d.held.(cache := false)) == c;
    assert Safe(hash, op, d, Do(UnlockCache, k));
    assert Safe(hash, op, d, Do(Scan(reach), Do(UnlockCache, k)));
  }

  lemma BumpPlanSafe(hash: Key -> nat, op: Op, c: Ctx, k: Code)
    requires !c.held.cache && !c.held.slabs && c.held.probe.None? && Safe(hash, op, c, k)
    ensures Safe(hash, op, c, Do(LockCache, Do(Bump, Do(UnlockCache, k))))
  {
    var d := c.(held := c.held.(cache := true));
    assert d.(held := d.held.(cache := false)) == c;
    assert Safe(hash, op, d, Do(UnlockCache, k));
    assert Safe(hash, op, d, Do(Bump, Do(UnlockCache, k)));
  }

  lemma LinkPlanSafe(hash: Key -> nat, op: Op, c: Ctx, v: Blob, x: nat, f: ItemFlag, k: Code)
    requires op.StoreOp? && WellFormed(op)
    requires c.held == NOTHING.(own := Some(hash(op.key)))
    requires c.slot == Known(None) || c.slot.Window?
    requires Decide(op.cmd, Prior(c.slot), op.offer, op.room) == Put(v, x, f)
    requires Safe(hash, op, c.(slot := Settled), k)
    ensures Safe(hash, op, c, LinkPlan(v, x, f, k))
  {
    if !f.Dirty() {
      var d := c.(held := c.held.(cache := true));
      var e := d.(slot := Settled);
      assert e.(held := e.held.(cache := false)) == c.(slot := Settled);
      assert Safe(hash, op, e, Do(UnlockCache, k));
      assert Safe(hash, op, d, Do(Link(v, x, f), Do(UnlockCache, k)));
    }
  }

  lemma StorePlanSafe(hash: Key -> nat, op: Op, prior: Option<Entry>, bumps: bool, k: Code)
    requires op.StoreOp? && WellFormed(op)
    requires k == Do(UnlockBucket(hash(op.key)), Done)
    ensures Safe(hash, op, Ctx(NOTHING.(own := Some(hash(op.key))), Known(prior)), StorePlan(op, prior, bumps, k))
  {
    var c := Ctx(NOTHING.(own := Some(hash(op.key))), Known(prior));
    var done := c.(slot := Settled);
    assert Safe(hash, op, done, k);
    var drop := if prior.Some? then Do(Release(Item(prior.value.cas)), k) else k;
    assert Safe(hash, op, done, drop);
    match Decide(op.cmd, prior, op.offer, op.room)
    case Refuse(_) =>
      assert Safe(hash, op, c, Do(Refused, drop));
      BumpPlanSafe(hash, op, c, Do(Refused, drop));
      AllocPlanSafe(hash, op, c, op.reach, Do(Refused, drop));
    case Put(v, x, f) =>
      var last := if Joins(op.cmd) then Do(Release(Built), drop) else drop;
      assert Safe(hash, op, done, last);
      var link := LinkPlan(v, x, f, last);
      if prior.Some? {
        LinkPlanSafe(hash, op, c.(slot := Window(prior.value)), v, x, f, last);
        UnlinkPlanSafe(hash, op, c, prior.value.cas, Replacing, link);
        AllocPlanSafe(hash, op, c, op.reach, UnlinkPlan(op.key, prior.value.cas, Replacing, link));
      } else {
        LinkPlanSafe(hash, op, c, v, x, f, last);
        AllocPlanSafe(hash, op, c, op.reach, link);
      }
  }

  lemma GetPlanSafe(hash: Key -> nat, op: Op, found: Option<Entry>, now: nat, bumps: bool, k: Code)
    requires WellFormed(op) && (op.GetOp? || op.TouchOp? || op.StoreOp?)
    requires k == Do(UnlockBucket(hash(op.key)), Done)
    ensures Safe(hash, op, Ctx(NOTHING.(own := Some(hash(op.key))), Known(found)), GetPlan(op, found, now, bumps, k))
  {
    var c := Ctx(NOTHING.(own := Some(hash(op.key))), Known(found));
    var prior := Visible(found, now);
    var d := c.(slot := Known(prior));
    var next := AfterGet(op, prior, bumps, k);
    assert Safe(hash, op, d, next) by {
      if op.StoreOp? {
        StorePlanSafe(hash, op, prior, bumps, k);
      } else {
        assert Safe(hash, op, d, k);
        assert Safe(hash, op, d.(slot := Settled), k);
      }
    }
    if found.Some? && Expired(found.value, now) {
      assert Safe(hash, op, d, Do(Release(Item(found.value.cas)), next));
      UnlinkPlanSafe(hash, op, c, found.value.cas, Lazy, Do(Release(Item(found.value.cas)), next));
    }
  }

  lemma StartPlanSafe(hash: Key -> nat, op: Op)
    requires WellFormed(op)
    ensures Safe(hash, op, Ctx(NOTHING, Unknown), StartPlan(hash, op))
  {
    var b := hash(op.key);
    var leave := Do(UnlockBucket(b), Done);
    var c := Ctx(NOTHING, Unknown);
    var d := Ctx(NOTHING.(own := Some(b)), Unknown);
    if op.AllocOp? {
      AllocPlanSafe(hash, op, c, op.reach, Done);
    } else if !op.StoreOp? {
      assert Safe(hash, op, d, leave);
      BumpPlanSafe(hash, op, d, leave);
      if op.DeleteOp? {
        UnlinkPlanSafe(hash, op, d, op.cas, Own, leave);
      }
    }
  }

  lemma ProbePlanSafe(hash: Key -> nat, op: Op, c: Ctx, act: Act, key: Key, id: nat, left: nat, k: Code)
    requires c.held.cache && !c.held.slabs && c.held.probe.None? && !c.slot.Settled? && Safe(hash, op, c, k)
    ensures Safe(hash, op, c.(held := c.held.(probe := Some(hash(key)))), ProbePlan(act, key, id, hash(key), left, k))
  {
    var b := hash(key);
    var d := c.(held := c.held.(probe := Some(b)));
    assert d.(held := d.held.(probe := None)) == c;
    var out := Do(UnlockBucket(b), k);
    assert Safe(hash, op, d, out);
    assert Safe(hash, op, c, Do(Scan(left), k));
    var again := Do(UnlockBucket(b), Do(Scan(left), k));
    assert Safe(hash, op, d, again);
    assert Safe(hash, op, d, Do(Release(Item(id)), again));
    assert Safe(hash, op, d, Do(Cut(key, id, Lazy), Do(Release(Item(id)), again)));
    FreePlanSafe(hash, op, d, out);
    assert Safe(hash, op, d, Do(Release(Item(id)), out));
    var kill := Do(Cut(key, id, Lazy), Do(Release(Item(id)), out));
    assert Safe(hash, op, d, kill);
    FreePlanSafe(hash, op, d, kill);
    FreePlanSafe(hash, op, d, FreePlan(kill));
  }
}
