/** Every step of every thread keeps the invariant; the theorems over all interleavings follow from it. */
module InterleavingSafety {
  import opened Layout
  import opened CacheSpec
  import opened Interleaving

  /** The atomic event of the store that thread i's next step is, seen through Abs. */
  function EventOf(s: Sys, i: nat): Event
    requires i < |s.threads| && s.threads[i].code.Do?
  {
    var op := s.threads[i].op;
    match s.threads[i].code.head
    case Cut(k, id, Lazy) => if Bound(s, k, id) then Reclaim(k) else Nop
    case Cut(k, id, Own) => Unlink(k, id)
    case Link(_, _, _) => if op.StoreOp? then Resolve(op.cmd, op.offer, op.room) else Nop
    case LinkRefused => if op.StoreOp? then Resolve(op.cmd, op.offer, op.room) else Nop
    case Refused => if op.StoreOp? then Resolve(op.cmd, op.offer, op.room) else Nop
    case SetExptime(x) => Touch(op.key, x)
    case _ => Nop
  }

  // ---------- one thread's step, seen by the others ----------

  /** Thread i changed no other thread, no lock of another thread and no key whose bucket it does not hold. */
  ghost predicate LocalStep(s: Sys, t: Sys, i: nat) {
    && t.hash == s.hash && |t.threads| == |s.threads| && i < |s.threads|
    && s.store.lastCas <= t.store.lastCas
    && (forall id {:trigger id in Ids(t.store.view)} ::
         id in Ids(t.store.view) && id <= s.store.lastCas ==> id in Ids(s.store.view))
    && (forall j :: 0 <= j < |s.threads| && j != i ==> t.threads[j] == s.threads[j])
    && (forall j: nat, b: nat :: j != i ==> (Holds(t, j, b) <==> Holds(s, j, b)))
    && (forall j: nat :: j != i ==>
         (t.cache == Some(j) <==> s.cache == Some(j)) && (t.slabs == Some(j) <==> s.slabs == Some(j)))
    && (forall k :: !Holds(s, i, s.hash(k)) ==>
         Lookup(t.store.view, k) == Lookup(s.store.view, k) && Lookup(t.hidden, k) == Lookup(s.hidden, k))
  }

  lemma OthersKeep(s: Sys, t: Sys, i: nat, j: nat)
    requires Inv(s) && LocalStep(s, t, i) && j < |s.threads| && j != i
    ensures ThreadOk(t, j)
  {
    assert ThreadOk(s, j);
    var u := s.threads[j];
    assert t.threads[j] == u;
    if u.held.own.Some? {
      assert Holds(s, j, s.hash(u.op.key));
      assert !Holds(s, i, s.hash(u.op.key));
      assert Lookup(t.store.view, u.op.key) == Lookup(s.store.view, u.op.key);
      assert Lookup(t.hidden, u.op.key) == Lookup(s.hidden, u.op.key);
    }
  }

  lemma AllKeep(s: Sys, t: Sys, i: nat)
    requires Inv(s) && LocalStep(s, t, i) && ThreadOk(t, i)
    ensures forall j: nat :: j < |t.threads| ==> ThreadOk(t, j)
  {
    forall j: nat | j < |t.threads| ensures ThreadOk(t, j) {
      if j != i { OthersKeep(s, t, i, j); }
    }
  }

  lemma AtThread(s: Sys, i: nat)
    requires Inv(s) && i < |s.threads|
    ensures ThreadOk(s, i) && HiddenOk(s)
  {
  }

  /** Away from item_free's check the code is safe as it stands. */
  lemma CodeIsSafe(s: Sys, i: nat)
    requires i < |s.threads| && ThreadOk(s, i) && s.threads[i].code.Do? && !s.threads[i].code.head.CheckEnds?
    ensures var t := s.threads[i]; Safe(s.hash, t.op, Ctx(t.held, t.slot), t.code)
  {
  }

  lemma SafeIsOk(s: Sys, t: Thread)
    ensures Safe(s.hash, t.op, Ctx(t.held, t.slot), t.code) ==> CodeOk(s, t)
  {
  }

  lemma BucketStepKeeps(s: Sys, i: nat, ch: Choice)
    requires HiddenOk(s) && Enabled(s, i) && ThreadOk(s, i)
    requires (s.threads[i].code.head.LockBucket? || s.threads[i].code.head.UnlockBucket?)
    ensures LocalStep(s, Step(s, i, ch), i) && ThreadOk(Step(s, i, ch), i)
  {
    hide CodeOk;
    CodeIsSafe(s, i);
    SafeIsOk(Step(s, i, ch), Step(s, i, ch).threads[i]);
  }

  lemma MutexStepKeeps(s: Sys, i: nat, ch: Choice)
    requires Enabled(s, i) && ThreadOk(s, i)
    requires var x := s.threads[i].code.head; x.LockCache? || x.UnlockCache? || x.LockSlabs? || x.UnlockSlabs?
    ensures LocalStep(s, Step(s, i, ch), i) && ThreadOk(Step(s, i, ch), i)
  {
    hide CodeOk;
    CodeIsSafe(s, i);
    SafeIsOk(Step(s, i, ch), Step(s, i, ch).threads[i]);
  }

  /** Steps that leave the data alone. */
  lemma LockStepKeeps(s: Sys, i: nat, ch: Choice)
    requires Inv(s) && Enabled(s, i)
    requires var x := s.threads[i].code.head;
             x.LockBucket? || x.UnlockBucket? || x.LockCache? || x.UnlockCache? || x.LockSlabs? || x.UnlockSlabs?
    ensures LocalStep(s, Step(s, i, ch), i) && ThreadOk(Step(s, i, ch), i)
    ensures Step(s, i, ch).store == s.store && Step(s, i, ch).hidden == s.hidden
  {
    hide Inv, CodeOk, Safe, ThreadOk, LocalStep, HiddenOk, After;
    AtThread(s, i);
    if s.threads[i].code.head.LockBucket? || s.threads[i].code.head.UnlockBucket? {
      BucketStepKeeps(s, i, ch);
    } else {
      MutexStepKeeps(s, i, ch);
    }
  }

  lemma FindStepKeeps(s: Sys, i: nat, ch: Choice)
    requires Enabled(s, i) && ThreadOk(s, i) && s.threads[i].code.head.Find?
    ensures LocalStep(s, Step(s, i, ch), i) && ThreadOk(Step(s, i, ch), i)
  {
    hide CodeOk, GetPlan, After;
    CodeIsSafe(s, i);
    var t := s.threads[i];
    SafeIsOk(Step(s, i, ch), Step(s, i, ch).threads[i]);
    GetPlanSafe(s.hash, t.op, Lookup(s.store.view, t.op.key), ch.now, ch.bumps, t.code.tail);
  }

  lemma PlainStepKeeps(s: Sys, i: nat, ch: Choice)
    requires Enabled(s, i) && ThreadOk(s, i)
    requires var x := s.threads[i].code.head; x.Bump? || x.FreeList? || x.Refused?
    ensures LocalStep(s, Step(s, i, ch), i) && ThreadOk(Step(s, i, ch), i)
  {
    hide CodeOk;
    CodeIsSafe(s, i);
    SafeIsOk(Step(s, i, ch), Step(s, i, ch).threads[i]);
  }

  /** Steps that only decide what comes next. */
  lemma PlanStepKeeps(s: Sys, i: nat, ch: Choice)
    requires Inv(s) && Enabled(s, i)
    requires var x := s.threads[i].code.head; x.Find? || x.Bump? || x.FreeList? || x.Refused?
    ensures LocalStep(s, Step(s, i, ch), i) && ThreadOk(Step(s, i, ch), i)
    ensures Step(s, i, ch).store == s.store && Step(s, i, ch).hidden == s.hidden
  {
    hide Inv, CodeOk, Safe, ThreadOk, LocalStep, HiddenOk, After;
    AtThread(s, i);
    if s.threads[i].code.head.Find? { FindStepKeeps(s, i, ch); } else { PlainStepKeeps(s, i, ch); }
  }

  /** A reference is dropped: if that was the last, item_free's check comes next, and then the free list. */
  lemma FreeStepKeeps(s: Sys, i: nat, ch: Choice)
    requires Inv(s) && Enabled(s, i)
    requires var x := s.threads[i].code.head; x.Release? || x.CheckEnds?
    ensures LocalStep(s, Step(s, i, ch), i) && ThreadOk(Step(s, i, ch), i)
    ensures Step(s, i, ch).store == s.store && Step(s, i, ch).hidden == s.hidden
  {
    AtThread(s, i);
    var t := s.threads[i];
    SafeIsOk(Step(s, i, ch), Step(s, i, ch).threads[i]);
    if t.code.head.CheckEnds? {
      FreePlanSafe(s.hash, t.op, Ctx(t.held, t.slot), t.code.tail);
    } else {
      CodeIsSafe(s, i);
    }
  }

  /** A scan that is safe is safe one node nearer to the head, and so is what follows it. */
  lemma ScanIsSafe(hash: Key -> nat, op: Op, c: Ctx, left: nat, k: Code)
    requires Safe(hash, op, c, Do(Scan(left), k))
    ensures Safe(hash, op, c, k) && c.held.cache && !c.held.slabs && c.held.probe.None? && !c.slot.Settled?
    ensures left > 0 ==> Safe(hash, op, c, Do(Scan(left - 1), k))
  {
  }

  lemma ScanStepKeeps(s: Sys, i: nat, ch: Choice)
    requires Inv(s) && Enabled(s, i) && s.threads[i].code.head.Scan?
    ensures LocalStep(s, Step(s, i, ch), i) && ThreadOk(Step(s, i, ch), i)
    ensures Step(s, i, ch).store == s.store && Step(s, i, ch).hidden == s.hidden
  {
    hide CodeOk, Inv, Safe, After, HiddenOk, FreePlan, ProbePlan;
    AtThread(s, i);
    CodeIsSafe(s, i);
    SafeIsOk(Step(s, i, ch), Step(s, i, ch).threads[i]);
    var t := s.threads[i];
    var left, k, c := t.code.head.left, t.code.tail, Ctx(t.held, t.slot);
    ScanIsSafe(s.hash, t.op, c, left, k);
    if left == 0 {
      FreePlanSafe(s.hash, t.op, c, k);
    } else if ch.act != Pass && ch.key in s.store.view && s.hash(ch.key) !in s.buckets {
      ProbePlanSafe(s.hash, t.op, c, ch.act, ch.key, s.store.view[ch.key].cas, left - 1, k);
    }
  }

  // ---------- the data steps, one role at a time ----------

  /** Before a cut: the thread holds cache_lock and the key's bucket, and nobody is replacing the key. */
  lemma CutHolds(s: Sys, i: nat)
    requires Inv(s) && i < |s.threads| && s.threads[i].code.Do? && s.threads[i].code.head.Cut?
    ensures Holds(s, i, s.hash(s.threads[i].code.head.key)) && s.cache == Some(i)
    ensures s.threads[i].code.head.key !in s.hidden
  {
    assert ThreadOk(s, i);
  }

  lemma CutDataLocal(s: Sys, key: Key, cas: nat, role: Role, k: Key)
    requires k != key
    ensures Lookup(CutData(s, key, cas, role).store.view, k) == Lookup(s.store.view, k)
    ensures Lookup(CutData(s, key, cas, role).hidden, k) == Lookup(s.hidden, k)
  {
  }

  lemma CutLocal(s: Sys, i: nat, ch: Choice)
    requires Inv(s) && Enabled(s, i) && s.threads[i].code.head.Cut?
    ensures LocalStep(s, Step(s, i, ch), i)
  {
    CutHolds(s, i);
    var x := s.threads[i].code.head;
    var t := Step(s, i, ch);
    assert t.store == CutData(s, x.key, x.cas, x.role).store && t.hidden == CutData(s, x.key, x.cas, x.role).hidden;
    forall k | !Holds(s, i, s.hash(k))
      ensures Lookup(t.store.view, k) == Lookup(s.store.view, k) && Lookup(t.hidden, k) == Lookup(s.hidden, k)
    {
      CutDataLocal(s, x.key, x.cas, x.role, k);
    }
  }

  lemma LazyCutThread(s: Sys, i: nat, ch: Choice)
    requires Inv(s) && Enabled(s, i) && s.threads[i].code.head.Cut? && s.threads[i].code.head.role == Lazy
    ensures ThreadOk(Step(s, i, ch), i)
  {
    hide CodeOk;
    assert ThreadOk(s, i);
    CodeIsSafe(s, i);
    SafeIsOk(Step(s, i, ch), Step(s, i, ch).threads[i]);
    CutHolds(s, i);
    var t := s.threads[i];
    var key := t.code.head.key;
    if t.held.own.Some? && key == t.op.key {
      assert t.held.probe != Some(s.hash(key));
    }
  }

  lemma FirmCutThread(s: Sys, i: nat, ch: Choice)
    requires Inv(s) && Enabled(s, i) && s.threads[i].code.head.Cut? && s.threads[i].code.head.role != Lazy
    ensures ThreadOk(Step(s, i, ch), i)
  {
    hide CodeOk;
    assert ThreadOk(s, i);
    CodeIsSafe(s, i);
    SafeIsOk(Step(s, i, ch), Step(s, i, ch).threads[i]);
    CutHolds(s, i);
  }

  lemma CutDataAbs(s: Sys, key: Key, cas: nat, role: Role)
    requires key !in s.hidden
    ensures Abs(CutData(s, key, cas, role)) ==
            if role == Replacing || !Bound(s, key, cas) then Abs(s) else Apply(Abs(s), Reclaim(key))
  {
    var t := CutData(s, key, cas, role);
    if Bound(s, key, cas) {
      if role == Replacing {
        assert Abs(t).view == Abs(s).view;
      } else {
        assert Abs(t).view == Without(Abs(s).view, key);
      }
    }
  }

  lemma CutAbs(s: Sys, i: nat, ch: Choice)
    requires Inv(s) && Enabled(s, i) && s.threads[i].code.head.Cut?
    ensures Abs(Step(s, i, ch)) == Apply(Abs(s), EventOf(s, i))
  {
    CutHolds(s, i);
    var x := s.threads[i].code.head;
    CutDataAbs(s, x.key, x.cas, x.role);
    assert Abs(Step(s, i, ch)) == Abs(CutData(s, x.key, x.cas, x.role));
  }

  lemma CutHidden(s: Sys, i: nat, ch: Choice)
    requires Inv(s) && Enabled(s, i) && s.threads[i].code.head.Cut?
    ensures HiddenOk(Step(s, i, ch))
  {
    assert ThreadOk(s, i);
    CutHolds(s, i);
  }

  /** Before a store settles: the thread holds its own bucket and knows the binding the store sees. */
  lemma SettleKnows(s: Sys, i: nat)
    requires Inv(s) && i < |s.threads| && s.threads[i].code.Do?
    requires var x := s.threads[i].code.head; x.Link? || x.LinkRefused? || x.Refused? || x.SetExptime?
    ensures var t := s.threads[i];
            && Holds(s, i, s.hash(t.op.key))
            && (t.slot.Known? || t.slot.Window?) && (t.code.head.SetExptime? ==> t.slot.Known?)
            && Lookup(Abs(s).view, t.op.key) == Prior(t.slot)
            && (t.op.StoreOp? ==> t.op.offer.key == t.op.key)
  {
    assert ThreadOk(s, i);
  }

  lemma SettleLocal(s: Sys, i: nat, ch: Choice)
    requires Inv(s) && Enabled(s, i)
    requires var x := s.threads[i].code.head; x.Link? || x.LinkRefused? || x.SetExptime?
    ensures LocalStep(s, Step(s, i, ch), i)
  {
    hide Inv, After, Abs;
    SettleKnows(s, i);
    var key := s.threads[i].op.key;
    assert forall k :: !Holds(s, i, s.hash(k)) ==> k != key;
  }

  lemma SettleThread(s: Sys, i: nat, ch: Choice)
    requires Inv(s) && Enabled(s, i)
    requires var x := s.threads[i].code.head; x.Link? || x.LinkRefused? || x.SetExptime?
    ensures ThreadOk(Step(s, i, ch), i)
  {
    hide CodeOk;
    assert ThreadOk(s, i);
    CodeIsSafe(s, i);
    SafeIsOk(Step(s, i, ch), Step(s, i, ch).threads[i]);
  }

  /** A link over a hidden predecessor is one atomic binding. */
  lemma LinkDataAbs(s: Sys, key: Key, v: Blob, e: nat, f: ItemFlag)
    requires !f.Dirty()
    ensures Abs(LinkData(s, key, Link(v, e, f))) == Bind(Abs(s), key, v, e, f)
  {
    assert Abs(LinkData(s, key, Link(v, e, f))).view == Bind(Abs(s), key, v, e, f).view;
  }

  lemma LinkRefusedAbs(s: Sys, key: Key, v: Blob, e: nat, f: ItemFlag)
    requires f.Dirty() && key !in s.store.view
    ensures Abs(LinkData(s, key, LinkRefused)) == Bind(Abs(s), key, v, e, f)
  {
    assert Abs(LinkData(s, key, LinkRefused)).view == Without(Abs(s).view, key);
  }

  lemma TouchAbs(s: Sys, key: Key, e: nat)
    requires key !in s.hidden
    ensures Abs(LinkData(s, key, SetExptime(e))) == Apply(Abs(s), Touch(key, e))
  {
    assert Abs(LinkData(s, key, SetExptime(e))).view == Apply(Abs(s), Touch(key, e)).view;
  }

  lemma SettleAbs(s: Sys, i: nat, ch: Choice)
    requires Inv(s) && Enabled(s, i)
    requires var x := s.threads[i].code.head; x.Link? || x.LinkRefused? || x.SetExptime? || x.Refused?
    ensures Abs(Step(s, i, ch)) == Apply(Abs(s), EventOf(s, i))
  {
    assert ThreadOk(s, i);
    SettleKnows(s, i);
    var t := s.threads[i];
    assert Abs(Step(s, i, ch)) == Abs(LinkData(s, t.op.key, t.code.head));
    match t.code.head
    case Link(v, e, f) => LinkDataAbs(s, t.op.key, v, e, f);
    case LinkRefused =>
      var d := Decide(t.op.cmd, Prior(t.slot), t.op.offer, t.op.room);
      LinkRefusedAbs(s, t.op.key, d.value, d.exptime, d.flag);
    case SetExptime(e) => TouchAbs(s, t.op.key, e);
    case _ =>
  }

  lemma SettleHidden(s: Sys, i: nat, ch: Choice)
    requires Inv(s) && Enabled(s, i)
    requires var x := s.threads[i].code.head; x.Link? || x.LinkRefused? || x.SetExptime?
    ensures HiddenOk(Step(s, i, ch))
  {
    hide CodeOk, Safe, After, Sound, Abs;
    assert ThreadOk(s, i);
    SettleKnows(s, i);
  }
}
