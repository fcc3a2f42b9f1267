/** Deadlock freedom, termination, absence of data races, and atomicity of the store's operations, for all schedules. */
module InterleavingTheorems {
  import opened Layout
  import opened CacheSpec
  import opened Interleaving
  import opened InterleavingSafety

  // ---------- the invariant over whole runs ----------

  lemma SameThreads(s: Sys, t: Sys, i: nat)
    requires LocalStep(s, t, i)
    ensures |t.threads| == |s.threads|
  {
  }

  lemma QuietHidden(s: Sys, t: Sys, i: nat)
    requires Inv(s) && LocalStep(s, t, i) && ThreadOk(t, i) && t.store == s.store && t.hidden == s.hidden
    requires s.threads[i].slot.Window? ==> t.threads[i].slot.Window? && t.threads[i].op == s.threads[i].op
    ensures HiddenOk(t)
  {
    forall k | k in t.hidden
      ensures s.hash(k) in t.buckets && t.buckets[s.hash(k)] < |t.threads|
      ensures t.threads[t.buckets[s.hash(k)]].slot.Window? && t.threads[t.buckets[s.hash(k)]].op.key == k
    {
      var j := s.buckets[s.hash(k)];
      assert Holds(s, j, s.hash(k)) && ThreadOk(s, j);
      if j != i {
        assert Holds(t, j, s.hash(k));
      } else {
        assert t.threads[i].held.own.Some?;
        assert Holds(t, i, s.hash(k));
      }
    }
  }

  /** Steps that change neither the map nor the hidden entries. */
  lemma QuietStep(s: Sys, i: nat, ch: Choice)
    requires Inv(s) && Enabled(s, i)
    requires var x := s.threads[i].code.head; !x.Cut? && !x.Link? && !x.LinkRefused? && !x.SetExptime?
    ensures var t := Step(s, i, ch);
            && LocalStep(s, t, i) && ThreadOk(t, i) && HiddenOk(t)
            && Abs(t) == Apply(Abs(s), EventOf(s, i))
  {
    hide Inv, Safe, LocalStep, HiddenOk, Sound;
    AtThread(s, i);
    var t := Step(s, i, ch);
    var x := s.threads[i].code.head;
    if x.Scan? {
      ScanStepKeeps(s, i, ch);
    } else if x.Release? || x.CheckEnds? {
      FreeStepKeeps(s, i, ch);
    } else if x.Find? || x.Bump? || x.FreeList? || x.Refused? {
      PlanStepKeeps(s, i, ch);
    } else {
      LockStepKeeps(s, i, ch);
    }
    if x.Refused? {
      SettleAbs(s, i, ch);
    }
    QuietHidden(s, t, i);
  }

  /** What one step leaves of its own thread, of the hidden entries and of the atomic store. */
  lemma StepKeeps(s: Sys, i: nat, ch: Choice)
    requires Inv(s) && Enabled(s, i)
    ensures var t := Step(s, i, ch);
            && LocalStep(s, t, i) && ThreadOk(t, i) && HiddenOk(t)
            && Abs(t) == Apply(Abs(s), EventOf(s, i))
  {
    hide Inv, Safe, LocalStep, HiddenOk, Sound, ThreadOk, Abs, Apply, EventOf, Step;
    var x := s.threads[i].code.head;
    if x.Cut? {
      CutLocal(s, i, ch);
      if x.role == Lazy { LazyCutThread(s, i, ch); } else { FirmCutThread(s, i, ch); }
      CutAbs(s, i, ch);
      CutHidden(s, i, ch);
    } else if x.Link? || x.LinkRefused? || x.SetExptime? {
      SettleLocal(s, i, ch);
      SettleThread(s, i, ch);
      SettleAbs(s, i, ch);
      SettleHidden(s, i, ch);
    } else {
      QuietStep(s, i, ch);
    }
  }

  lemma TouchedIds(s: State, key: Key, exptime: nat)
    ensures Ids(Apply(s, Touch(key, exptime)).view) == Ids(s.view)
  {
    var v, w := s.view, Apply(s, Touch(key, exptime)).view;
    assert forall k :: k in v ==> k in w && w[k].cas == v[k].cas;
    assert forall k :: k in w ==> k in v && w[k].cas == v[k].cas;
  }

  /** The ends of the lists are linked items. */
  lemma EndsKeep(s: Sys, i: nat, ch: Choice)
    requires Enabled(s, i) && s.ends <= Ids(s.store.view)
    ensures Step(s, i, ch).ends <= Ids(Step(s, i, ch).store.view)
  {
    hide Lookup, Bind, Decide, GetPlan, ProbePlan;
    var t := s.threads[i];
    if t.code.head.SetExptime? {
      TouchedIds(s.store, t.op.key, t.code.head.exptime);
    }
  }

  lemma StepOwned(s: Sys, t: Sys, i: nat)
    requires LocksOwned(s) && LocalStep(s, t, i)
    ensures LocksOwned(t)
  {
    forall b | b in t.buckets ensures t.buckets[b] < |t.threads| {
      assert Holds(t, t.buckets[b], b);
      assert t.buckets[b] != i ==> Holds(s, t.buckets[b], b);
    }
  }

  /** Every step of every thread keeps the invariant, and acts on the abstract store as one atomic event. */
  lemma StepRefines(s: Sys, i: nat, ch: Choice)
    requires Inv(s) && Enabled(s, i)
    ensures Inv(Step(s, i, ch))
    ensures Abs(Step(s, i, ch)) == Apply(Abs(s), EventOf(s, i))
  {
    hide Step, EventOf, Abs, Apply, Sound, HiddenOk, LocksOwned, ThreadOk, LocalStep;
    ApplySound(Abs(s), EventOf(s, i));
    StepKeeps(s, i, ch);
    EndsKeep(s, i, ch);
    AllKeep(s, Step(s, i, ch), i);
    StepOwned(s, Step(s, i, ch), i);
    SameThreads(s, Step(s, i, ch), i);
  }

  lemma BeginKeeps(s: Sys, i: nat, op: Op)
    requires Inv(s) && i < |s.threads| && s.threads[i].code.Done? && WellFormed(op)
    ensures Inv(Begin(s, i, op)) && Abs(Begin(s, i, op)) == Abs(s)
  {
    var t := Begin(s, i, op);
    assert ThreadOk(s, i);
    StartPlanSafe(s.hash, op);
    assert ThreadOk(t, i);
    assert LocalStep(s, t, i);
    AllKeep(s, t, i);
  }

  lemma InitInv(s: Sys)
    requires Init(s)
    ensures Inv(s)
  {
    forall i: nat | i < |s.threads| ensures ThreadOk(s, i) {
      assert s.threads[i].code.Done?;
    }
  }

  // ---------- locks ----------

  predicate Busy(s: Sys, i: nat) { i < |s.threads| && s.threads[i].code.Do? }

  /** No deadlock: while any thread is busy, some busy thread can take its next step. */
  lemma NeverStuck(s: Sys, i: nat)
    requires Inv(s) && Busy(s, i)
    ensures exists j: nat :: Enabled(s, j)
  {
    assert ThreadOk(s, i);
    if s.slabs.Some? {
      assert ThreadOk(s, s.slabs.value);
      assert Enabled(s, s.slabs.value);
    } else if s.cache.Some? {
      assert ThreadOk(s, s.cache.value);
      assert Enabled(s, s.cache.value);
    } else if s.threads[i].code.head.LockBucket? && s.threads[i].code.head.b in s.buckets {
      var j := s.buckets[s.threads[i].code.head.b];
      assert Holds(s, j, s.threads[i].code.head.b) && ThreadOk(s, j);
      assert Enabled(s, j);
    } else {
      assert Enabled(s, i);
    }
  }

  /** A thread with no work left owns no lock, whatever path it took; a store has given exactly one reply. */
  lemma DoneHoldsNothing(s: Sys, i: nat)
    requires Inv(s) && i < |s.threads| && s.threads[i].code.Done?
    ensures (forall b :: b in s.buckets ==> s.buckets[b] != i) && s.cache != Some(i) && s.slabs != Some(i)
    ensures s.threads[i].op.StoreOp? ==> s.threads[i].slot.Settled?
  {
    assert ThreadOk(s, i);
    forall b | b in s.buckets ensures s.buckets[b] != i {
      assert Holds(s, i, b) <==> s.threads[i].held.own == Some(b) || s.threads[i].held.probe == Some(b);
    }
  }

  /** What instructions read or write that other threads may write: `Ends` are heads[class] and tails[class]. */
  datatype Resource = Chain(b: nat) | Ends(cls: nat) | Nodes | Counters | FreeLists

  /** The class of an item. */
  function ClassOf(s: Sys, who: Who): nat {
    match who
    case Item(cas) => s.cls(cas)
    case Built => 0
    case Never(cls) => cls
  }

  /** The next instruction of thread i reads this. */
  predicate Reads(s: Sys, i: nat, r: Resource)
    requires Busy(s, i)
  {
    match s.threads[i].code.head
    case Find => r == Chain(s.hash(s.threads[i].op.key))
    case Scan(_) => r.Ends? || r.Nodes?
    case CheckEnds(item) => r == Ends(ClassOf(s, item))
    case _ => false
  }

  /** The next instruction of thread i writes this. A bump may be of any item. */
  predicate Writes(s: Sys, i: nat, r: Resource)
    requires Busy(s, i)
  {
    match s.threads[i].code.head
    case Cut(k, cas, _) => r == Chain(s.hash(k)) || r == Ends(s.cls(cas)) || r.Nodes? || r.Counters?
    case Link(_, _, _) =>
      r == Chain(s.hash(s.threads[i].op.key)) || r == Ends(s.cls(s.store.lastCas + 1)) || r.Nodes? || r.Counters?
    case SetExptime(_) => r == Chain(s.hash(s.threads[i].op.key))
    case Bump => r.Ends? || r.Nodes?
    case FreeList => r.FreeLists?
    case _ => false
  }

  /** The lock that guards a resource. */
  ghost predicate Guards(s: Sys, i: nat, r: Resource) {
    match r
    case Chain(b) => Holds(s, i, b)
    case Ends(_) => s.cache == Some(i)
    case Nodes => s.cache == Some(i)
    case Counters => s.cache == Some(i)
    case FreeLists => s.slabs == Some(i)
  }

  /** item_free compares the item with the ends of its list, and the thread does not hold cache_lock. */
  ghost predicate ChecksOutside(s: Sys, i: nat)
    requires Busy(s, i)
  {
    s.threads[i].code.head.CheckEnds? && s.cache != Some(i)
  }

  /** An access is made without the lock that guards what it touches exactly when it is item_free's check. */
  lemma AccessIsGuardedIff(s: Sys, i: nat, r: Resource)
    requires Inv(s) && Busy(s, i) && (Reads(s, i, r) || Writes(s, i, r))
    ensures Guards(s, i, r) <==> !ChecksOutside(s, i)
  {
    assert ThreadOk(s, i);
  }

  /** Two threads are about to access the same resource, and one of them to write it. */
  ghost predicate Race(s: Sys, i: nat, j: nat, r: Resource)
    requires Busy(s, i) && Busy(s, j)
  {
    i != j && ((Writes(s, i, r) && (Reads(s, j, r) || Writes(s, j, r))) || (Reads(s, i, r) && Writes(s, j, r)))
  }

  /** The one race there is: i at item_free's check, and j about to change an end of the same list. */
  ghost predicate RaceOnEnds(s: Sys, i: nat, j: nat, r: Resource)
    requires Busy(s, i) && Busy(s, j)
  {
    i != j && r.Ends? && s.threads[i].code.head.CheckEnds? && Reads(s, i, r) && Writes(s, j, r)
  }

  /** Two threads race exactly when one is at item_free's check while the other changes an end of that list. */
  lemma RaceIff(s: Sys, i: nat, j: nat, r: Resource)
    requires Inv(s) && Busy(s, i) && Busy(s, j)
    ensures Race(s, i, j, r) <==> RaceOnEnds(s, i, j, r) || RaceOnEnds(s, j, i, r)
    ensures RaceOnEnds(s, i, j, r) ==> s.cache == Some(j) && ChecksOutside(s, i)
  {
    if Race(s, i, j, r) {
      AccessIsGuardedIff(s, i, r);
      AccessIsGuardedIff(s, j, r);
      assert Guards(s, i, r) && Guards(s, j, r) ==> i == j;
    }
    if RaceOnEnds(s, i, j, r) {
      AccessIsGuardedIff(s, j, r);
    }
  }

  /**
   * The race decides nothing: whatever another thread does between the moment an item is found free and the moment it
   * is compared, before and after that thread's step the comparison finds that the item is no end.
   */
  lemma CheckIgnoresTheRace(s: Sys, i: nat, j: nat, ch: Choice)
    requires Inv(s) && Busy(s, i) && s.threads[i].code.head.CheckEnds? && Enabled(s, j) && i != j
    ensures var t, item := Step(s, j, ch), s.threads[i].code.head.item;
            t.threads[i] == s.threads[i] && !IsEnd(s, item) && !IsEnd(t, item)
  {
    assert ThreadOk(s, i);
    StepRefines(s, j, ch);
    StepKeeps(s, j, ch);
    assert ThreadOk(Step(s, j, ch), i);
  }

  /** So a thread at the check always goes on to free the item. */
  lemma CheckAlwaysPasses(s: Sys, i: nat, ch: Choice)
    requires Inv(s) && Busy(s, i) && s.threads[i].code.head.CheckEnds?
    ensures Enabled(s, i) && Step(s, i, ch).threads[i].code == FreePlan(s.threads[i].code.tail)
  {
    assert ThreadOk(s, i);
  }

  /**
   * While an operation holds its own bucket, no item of that bucket can be taken away: not by another thread, and not
   * by the operation's own scan. The item an append extends survives the allocation the append makes.
   */
  lemma OwnBucketIsSafe(s: Sys, i: nat, j: nat)
    requires Inv(s) && Busy(s, i) && s.threads[i].code.head.Cut?
    requires j < |s.threads| && s.threads[j].held.own.Some?
    requires i != j || s.threads[i].held.probe == Some(s.hash(s.threads[i].code.head.key))
    ensures s.hash(s.threads[i].code.head.key) != s.hash(s.threads[j].op.key)
  {
    CutHolds(s, i);
    assert ThreadOk(s, i) && ThreadOk(s, j);
    assert Holds(s, j, s.hash(s.threads[j].op.key));
  }

  // ---------- termination ----------

  /** An upper bound on the steps an instruction can still cause. */
  function Weight(op: Op, x: Instr): nat {
    match x
    case Release(_) => 5
    case CheckEnds(_) => 4
    case Scan(left) => 20 * left + 20
    case Find => if op.StoreOp? then 20 * op.reach + 80 else 30
    case _ => 1
  }

  function Work(op: Op, code: Code): nat {
    match code
    case Done => 0
    case Do(x, k) => Weight(op, x) + Work(op, k)
  }

  function WorkOf(t: Thread): nat { Work(t.op, t.code) }

  lemma FreePlanWork(op: Op, k: Code)
    ensures Work(op, FreePlan(k)) == 3 + Work(op, k)
  {
    assert Work(op, Do(UnlockSlabs, k)) == 1 + Work(op, k);
  }

  lemma UnlinkPlanWork(op: Op, key: Key, id: nat, role: Role, k: Code)
    ensures Work(op, UnlinkPlan(key, id, role, k)) == 8 + Work(op, k)
  {
    assert Work(op, Do(UnlockCache, k)) == 1 + Work(op, k);
    assert Work(op, Do(Release(Item(id)), Do(UnlockCache, k))) == 6 + Work(op, k);
  }

  lemma AllocPlanWork(op: Op, reach: nat, k: Code)
    ensures Work(op, AllocPlan(reach, k)) == 20 * reach + 22 + Work(op, k)
  {
    assert Work(op, Do(UnlockCache, k)) == 1 + Work(op, k);
  }

  lemma LinkPlanWork(op: Op, v: Blob, x: nat, f: ItemFlag, k: Code)
    ensures Work(op, LinkPlan(v, x, f, k)) <= 3 + Work(op, k)
  {
    assert Work(op, Do(UnlockCache, k)) == 1 + Work(op, k);
  }

  lemma StorePlanWork(op: Op, prior: Option<Entry>, bumps: bool, k: Code)
    requires op.StoreOp?
    ensures Work(op, StorePlan(op, prior, bumps, k)) <= 20 * op.reach + 45 + Work(op, k)
  {
    var drop := if prior.Some? then Do(Release(Item(prior.value.cas)), k) else k;
    assert Work(op, drop) <= 5 + Work(op, k);
    match Decide(op.cmd, prior, op.offer, op.room)
    case Refuse(_) =>
      var out := Do(Refused, drop);
      assert Work(op, out) <= 6 + Work(op, k);
      assert Work(op, Do(UnlockCache, out)) == 1 + Work(op, out);
      assert Work(op, Do(Bump, Do(UnlockCache, out))) == 2 + Work(op, out);
      AllocPlanWork(op, op.reach, out);
    case Put(v, x, f) =>
      var last := if Joins(op.cmd) then Do(Release(Built), drop) else drop;
      assert Work(op, last) <= 10 + Work(op, k);
      var link := LinkPlan(v, x, f, last);
      LinkPlanWork(op, v, x, f, last);
      var swap := if prior.Some? then UnlinkPlan(op.key, prior.value.cas, Replacing, link) else link;
      if prior.Some? { UnlinkPlanWork(op, op.key, prior.value.cas, Replacing, link); }
      AllocPlanWork(op, op.reach, swap);
  }

  lemma GetPlanWork(op: Op, found: Option<Entry>, now: nat, bumps: bool, k: Code)
    requires op.GetOp? || op.TouchOp? || op.StoreOp?
    ensures Work(op, GetPlan(op, found, now, bumps, k)) < Weight(op, Find) + Work(op, k)
  {
    var next := AfterGet(op, Visible(found, now), bumps, k);
    if op.StoreOp? {
      StorePlanWork(op, Visible(found, now), bumps, k);
    } else {
      assert Work(op, next) <= 1 + Work(op, k);
    }
    if found.Some? {
      var item := Item(found.value.cas);
      assert Work(op, Do(Release(item), next)) == 5 + Work(op, next);
      UnlinkPlanWork(op, op.key, found.value.cas, Lazy, Do(Release(item), next));
    }
  }

  lemma ProbePlanWork(op: Op, act: Act, key: Key, id: nat, b: nat, left: nat, k: Code)
    ensures Work(op, ProbePlan(act, key, id, b, left, k)) <= 20 * left + 32 + Work(op, k)
  {
    var out := Do(UnlockBucket(b), k);
    var again := Do(UnlockBucket(b), Do(Scan(left), k));
    assert Work(op, Do(Scan(left), k)) == 20 * left + 20 + Work(op, k);
    assert Work(op, Do(Release(Item(id)), again)) == 5 + Work(op, again);
    assert Work(op, Do(Cut(key, id, Lazy), Do(Release(Item(id)), again))) == 6 + Work(op, again);
    var kill := Do(Cut(key, id, Lazy), Do(Release(Item(id)), out));
    assert Work(op, Do(Release(Item(id)), out)) == 5 + Work(op, out);
    assert Work(op, kill) == 6 + Work(op, out);
    FreePlanWork(op, out);
    FreePlanWork(op, kill);
    FreePlanWork(op, FreePlan(kill));
  }

  lemma ScanShrinks(s: Sys, i: nat, ch: Choice)
    requires Enabled(s, i) && s.threads[i].code.head.Scan?
    ensures WorkOf(Step(s, i, ch).threads[i]) < WorkOf(s.threads[i])
  {
    var t := s.threads[i];
    var left, k := t.code.head.left, t.code.tail;
    if left == 0 {
      FreePlanWork(t.op, k);
    } else {
      assert Work(t.op, Do(Scan(left - 1), k)) == 20 * left + Work(t.op, k);
      if ch.key in s.store.view {
        ProbePlanWork(t.op, ch.act, ch.key, s.store.view[ch.key].cas, s.hash(ch.key), left - 1, k);
      }
    }
  }

  /** Only a lookup, a touch or a store runs a Find. */
  lemma CodeWorks(s: Sys, i: nat)
    requires i < |s.threads| && ThreadOk(s, i) && s.threads[i].code.Do?
    ensures s.threads[i].code.head.Find? ==>
              s.threads[i].op.GetOp? || s.threads[i].op.TouchOp? || s.threads[i].op.StoreOp?
  {
  }

  /** Every step brings its own thread closer to the end of its operation. */
  lemma StepShrinks(s: Sys, i: nat, ch: Choice)
    requires Inv(s) && Enabled(s, i)
    ensures var t := Step(s, i, ch);
            && |t.threads| == |s.threads|
            && WorkOf(t.threads[i]) < WorkOf(s.threads[i])
            && t.threads == s.threads[i := t.threads[i]]
  {
    hide Inv, LocksAgree, SlotAgrees, HiddenOk, After, GetPlan, FreePlan, ProbePlan;
    AtThread(s, i);
    CodeWorks(s, i);
    var t := s.threads[i];
    match t.code.head
    case Find => GetPlanWork(t.op, Lookup(s.store.view, t.op.key), ch.now, ch.bumps, t.code.tail);
    case Release(_) =>
    case CheckEnds(_) => FreePlanWork(t.op, t.code.tail);
    case Scan(left) => ScanShrinks(s, i, ch);
    case _ =>
  }

  ghost function TotalWork(threads: seq<Thread>): nat {
    if threads == [] then 0 else WorkOf(threads[0]) + TotalWork(threads[1..])
  }

  lemma {:induction false} TotalWorkUpdate(threads: seq<Thread>, i: nat, t: Thread)
    requires i < |threads|
    ensures TotalWork(threads[i := t]) + WorkOf(threads[i]) == TotalWork(threads) + WorkOf(t)
  {
    if i == 0 {
      assert threads[0 := t][1..] == threads[1..];
    } else {
      assert threads[i := t][1..] == threads[1..][i - 1 := t];
      TotalWorkUpdate(threads[1..], i - 1, t);
    }
  }

  /** A schedule: which thread steps next, and what it meets. */
  ghost predicate Runs(s: Sys, schedule: seq<(nat, Choice)>)
    decreases |schedule|
  {
    schedule == [] ||
    (Enabled(s, schedule[0].0) && Runs(Step(s, schedule[0].0, schedule[0].1), schedule[1..]))
  }

  ghost function Final(s: Sys, schedule: seq<(nat, Choice)>): Sys
    requires Runs(s, schedule)
    decreases |schedule|
  {
    if schedule == [] then s else Final(Step(s, schedule[0].0, schedule[0].1), schedule[1..])
  }

  lemma Quiet(s: Sys)
    requires Inv(s) && forall j: nat :: !Enabled(s, j)
    ensures forall i :: 0 <= i < |s.threads| ==> s.threads[i].code.Done?
    ensures s.buckets == map[] && s.cache.None? && s.slabs.None?
  {
    forall i | 0 <= i < |s.threads| ensures s.threads[i].code.Done? {
      if s.threads[i].code.Do? { NeverStuck(s, i); }
    }
    forall b ensures b !in s.buckets {
      if b in s.buckets { DoneHoldsNothing(s, s.buckets[b]); }
    }
    if s.cache.Some? { DoneHoldsNothing(s, s.cache.value); }
    if s.slabs.Some? { DoneHoldsNothing(s, s.slabs.value); }
  }

  /**
   * Every schedule ends: it has at most TotalWork steps, and where it cannot go on every operation has finished and
   * no lock is held by anyone.
   */
  lemma {:induction false} EveryScheduleFinishes(s: Sys, schedule: seq<(nat, Choice)>)
    requires Inv(s) && Runs(s, schedule)
    ensures |schedule| <= TotalWork(s.threads)
    ensures var t := Final(s, schedule);
            && Inv(t)
            && ((forall j: nat :: !Enabled(t, j)) ==>
                 && (forall i :: 0 <= i < |t.threads| ==> t.threads[i].code.Done?)
                 && t.buckets == map[] && t.cache.None? && t.slabs.None?)
    decreases |schedule|
  {
    if schedule == [] {
      if forall j: nat :: !Enabled(s, j) {
        Quiet(s);
      }
    } else {
      var (i, ch) := schedule[0];
      StepRefines(s, i, ch);
      StepShrinks(s, i, ch);
      TotalWorkUpdate(s.threads, i, Step(s, i, ch).threads[i]);
      EveryScheduleFinishes(Step(s, i, ch), schedule[1..]);
    }
  }
}
