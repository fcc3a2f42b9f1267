/** Whole interleaved executions are runs of the abstract store, so what CacheRuns proves holds of every schedule. */
module InterleavingRuns {
  import opened Layout
  import opened CacheSpec
  import opened CacheRuns
  import opened Interleaving
  import opened InterleavingSafety
  import opened InterleavingTheorems

  datatype Move = Start(thread: nat, op: Op) | Exec(thread: nat, choice: Choice)

  predicate Legal(s: Sys, m: Move) {
    match m
    case Start(i, op) => i < |s.threads| && s.threads[i].code.Done? && WellFormed(op)
    case Exec(i, _) => Enabled(s, i)
  }

  function Next(s: Sys, m: Move): Sys
    requires Legal(s, m)
  {
    match m
    case Start(i, op) => Begin(s, i, op)
    case Exec(i, ch) => Step(s, i, ch)
  }

  function EventAt(s: Sys, m: Move): Event
    requires Legal(s, m)
  {
    if m.Exec? then EventOf(s, m.thread) else Nop
  }

  ghost predicate IsExecution(ss: seq<Sys>, ms: seq<Move>) {
    && |ss| == |ms| + 1 && Init(ss[0])
    && forall n {:trigger ms[n]} :: 0 <= n < |ms| ==> Legal(ss[n], ms[n]) && ss[n + 1] == Next(ss[n], ms[n])
  }

  /** A move keeps the invariant, and is one event of the atomic store. */
  lemma MoveRefines(s: Sys, m: Move)
    requires Inv(s) && Legal(s, m)
    ensures Inv(Next(s, m)) && Abs(Next(s, m)) == Apply(Abs(s), EventAt(s, m))
  {
    hide Inv, Abs;
    match m
    case Start(i, op) => BeginKeeps(s, i, op);
    case Exec(i, ch) => StepRefines(s, i, ch);
  }

  lemma {:induction false} ReachableInv(ss: seq<Sys>, ms: seq<Move>, n: nat)
    requires IsExecution(ss, ms) && n <= |ms|
    ensures Inv(ss[n])
    decreases n
  {
    hide Inv, Next, Legal;
    if n == 0 {
      InitInv(ss[0]);
    } else {
      ReachableInv(ss, ms, n - 1);
      assert ss[n] == Next(ss[n - 1], ms[n - 1]);
      MoveRefines(ss[n - 1], ms[n - 1]);
    }
  }

  ghost function AbsStates(ss: seq<Sys>): seq<State> { seq(|ss|, n requires 0 <= n < |ss| => Abs(ss[n])) }

  ghost function AbsEvents(ss: seq<Sys>, ms: seq<Move>): seq<Event>
    requires IsExecution(ss, ms)
  {
    seq(|ms|, n requires 0 <= n < |ms| => assert ms[n] == ms[n]; EventAt(ss[n], ms[n]))
  }

  lemma StartsSound(s: Sys)
    requires Init(s)
    ensures Sound(Abs(s))
  {
    InitInv(s);
  }

  /** Atomicity: every interleaving of lock operations, lookups, unlinks and links is a run of atomic events. */
  lemma ExecutionRefinesRun(ss: seq<Sys>, ms: seq<Move>)
    requires IsExecution(ss, ms)
    ensures IsRun(AbsStates(ss), AbsEvents(ss, ms))
  {
    hide Inv, Abs, Next, Legal, Apply, Sound, EventAt;
    var states, events := AbsStates(ss), AbsEvents(ss, ms);
    StartsSound(ss[0]);
    forall n | 0 <= n < |events| ensures states[n + 1] == Apply(states[n], events[n]) {
      ReachableInv(ss, ms, n);
      assert Legal(ss[n], ms[n]) && ss[n + 1] == Next(ss[n], ms[n]);
      MoveRefines(ss[n], ms[n]);
    }
  }

  /** Thread i is about to settle: to link, to be refused a link, or to fall through without storing. */
  predicate Settles(s: Sys, i: nat) {
    Busy(s, i) && s.threads[i].op.StoreOp? &&
    (s.threads[i].code.head.Link? || s.threads[i].code.head.LinkRefused? || s.threads[i].code.head.Refused?)
  }

  /** The reply of a store is the decision on the atomic store at the moment it settles, and it settles once. */
  lemma ReplyIsDecidedAtomically(s: Sys, i: nat, ch: Choice)
    requires Inv(s) && Enabled(s, i) && Settles(s, i)
    ensures var op := s.threads[i].op;
            var t := Step(s, i, ch);
            && EventOf(s, i) == Resolve(op.cmd, op.offer, op.room)
            && t.threads[i].reply == Some(OutcomeOf(Decide(op.cmd, Lookup(Abs(s).view, op.key), op.offer, op.room)))
            && t.threads[i].slot.Settled? && !s.threads[i].slot.Settled?
  {
    SettleKnows(s, i);
    assert ThreadOk(s, i);
  }

  /** Thread i after its own step. */
  ghost function Stepped(s: Sys, i: nat, ch: Choice): Thread
    requires Inv(s) && Enabled(s, i)
  {
    StepShrinks(s, i, ch);
    Step(s, i, ch).threads[i]
  }

  /** Once settled, a store raises no further event on its key, and its reply stands until it returns. */
  lemma SettledStaysSettled(s: Sys, i: nat, ch: Choice)
    requires Inv(s) && Enabled(s, i) && s.threads[i].op.StoreOp? && s.threads[i].slot.Settled?
    ensures !Settles(s, i) && EventOf(s, i).Nop?
    ensures Stepped(s, i, ch).slot.Settled? && Stepped(s, i, ch).reply == s.threads[i].reply
  {
    hide Inv, LocksAgree, SlotAgrees, HiddenOk, GetPlan, ProbePlan, FreePlan;
    AtThread(s, i);
  }

  /** A lookup under the bucket lock sees the atomic store. */
  lemma FindSeesAtomicStore(s: Sys, i: nat)
    requires Inv(s) && Busy(s, i) && s.threads[i].code.head.Find?
    ensures Lookup(s.store.view, s.threads[i].op.key) == Lookup(Abs(s).view, s.threads[i].op.key)
  {
    assert ThreadOk(s, i);
  }

  /** The move is a lookup of k that finds entry e. */
  predicate Finds(s: Sys, m: Move, k: Key, e: Entry) {
    && m.Exec? && Busy(s, m.thread)
    && s.threads[m.thread].code.head.Find? && s.threads[m.thread].op.key == k
    && Lookup(s.store.view, k) == Some(e)
  }

  /** The move settles a cas store of k that was sent id c. */
  predicate SettlesCas(s: Sys, m: Move, k: Key, c: nat) {
    && m.Exec? && Settles(s, m.thread)
    && s.threads[m.thread].op.cmd == Cas && s.threads[m.thread].op.key == k
    && s.threads[m.thread].op.offer.expects == c
  }

  lemma FindsInAbs(ss: seq<Sys>, ms: seq<Move>, i: nat, k: Key, e: Entry)
    requires IsExecution(ss, ms) && i < |ms| && Finds(ss[i], ms[i], k, e)
    ensures Lookup(AbsStates(ss)[i].view, k) == Some(e)
  {
    ReachableInv(ss, ms, i);
    FindSeesAtomicStore(ss[i], ms[i].thread);
  }

  lemma CasReply(ss: seq<Sys>, ms: seq<Move>, j: nat, k: Key, c: nat)
    requires IsExecution(ss, ms) && j < |ms| && SettlesCas(ss[j], ms[j], k, c)
    ensures ms[j].thread < |ss[j + 1].threads|
    ensures ss[j + 1].threads[ms[j].thread].reply == Some(Stored) <==>
            k in AbsStates(ss)[j].view && AbsStates(ss)[j].view[k].cas == c
  {
    ReachableInv(ss, ms, j);
    var m := ms[j];
    assert Legal(ss[j], m) && ss[j + 1] == Next(ss[j], m);
    ReplyIsDecidedAtomically(ss[j], m.thread, m.choice);
  }

  /**
   * CAS over all interleavings of any number of threads: a lookup of k at move i finds entry e; at move j some thread
   * settles a cas store of k that was sent e's id. The reply is STORED exactly when, in between, no store of k was
   * STORED, no delete unlinked k, and k was neither evicted nor expired; and then k still has the value that was read.
   */
  lemma InterleavedCas(ss: seq<Sys>, ms: seq<Move>, i: nat, j: nat, k: Key, e: Entry)
    requires IsExecution(ss, ms) && i <= j < |ms|
    requires Finds(ss[i], ms[i], k, e) && SettlesCas(ss[j], ms[j], k, e.cas)
    ensures IsRun(AbsStates(ss), AbsEvents(ss, ms)) && ms[j].thread < |ss[j + 1].threads|
    ensures ss[j + 1].threads[ms[j].thread].reply == Some(Stored)
       <==> Undisturbed(AbsStates(ss), AbsEvents(ss, ms), k, i, j)
    ensures ss[j + 1].threads[ms[j].thread].reply == Some(Stored) ==>
              k in AbsStates(ss)[j].view && AbsStates(ss)[j].view[k].value == e.value
  {
    ExecutionRefinesRun(ss, ms);
    FindsInAbs(ss, ms, i, k, e);
    CasReply(ss, ms, j, k, e.cas);
    CasIdNeverReturns(AbsStates(ss), AbsEvents(ss, ms), k, i, j);
  }

  // ---------- the race on the list ends ----------

  /** Two idle threads, and an empty store with the length of a key as its hash. */
  function TwoIdle(): Sys {
    var idle := Thread(GetOp([]), Done, NOTHING, Settled, None, 0);
    Sys((k: Key) => |k|, (id: nat) => 0, State(map[], 0), map[], {}, map[], None, None, [idle, idle])
  }

  /** The first thread gives back an item that was never linked, and has found that this was the last reference. */
  lemma OneChecks(ch: Choice) returns (s: Sys, ms: seq<Move>, ss: seq<Sys>)
    requires ch.frees
    ensures IsExecution(ss, ms) && ss[|ms|] == s
    ensures s == TwoIdle().(
                   buckets := map[0 := 0],
                   threads := [Thread(ReleaseOp([], Never(0)), Do(CheckEnds(Never(0)), Do(UnlockBucket(0), Done)),
                                      NOTHING.(own := Some(0)), Unknown, None, 0), TwoIdle().threads[1]])
  {
    var s0 := TwoIdle();
    ms := [Start(0, ReleaseOp([], Never(0))), Exec(0, ch), Exec(0, ch)];
    var s1 := Next(s0, ms[0]);
    var s2 := Next(s1, ms[1]);
    s := Next(s2, ms[2]);
    ss := [s0, s1, s2, s];
  }

  /** The second thread stores a new key and is about to link it. */
  lemma OtherLinks(s: Sys, ch: Choice) returns (t: Sys, ms: seq<Move>, ss: seq<Sys>)
    requires |s.threads| == 2 && s.threads[1].code.Done? && s.hash([1]) == 1 && 1 !in s.buckets && s.cache.None?
    requires [1] !in s.store.view
    ensures |ss| == |ms| + 1 && ss[0] == s && ss[|ms|] == t
    ensures forall n {:trigger ms[n]} :: 0 <= n < |ms| ==> Legal(ss[n], ms[n]) && ss[n + 1] == Next(ss[n], ms[n])
    ensures |t.threads| == 2 && t.threads[0] == s.threads[0] && t.cls == s.cls && t.cache == Some(1) && Busy(t, 1)
    ensures t.threads[1].code.head == Link([13, 10], 0, CLEAN)
  {
    var op := StoreOp([1], Set, Offer([1], [13, 10], 0, 0, CLEAN), true, 0);
    ms := [Start(1, op), Exec(1, ch), Exec(1, ch), Exec(1, ch)];
    var s1 := Next(s, ms[0]);
    var s2 := Next(s1, ms[1]);
    var s3 := Next(s2, ms[2]);
    t := Next(s3, ms[3]);
    ss := [s, s1, s2, s3, t];
  }

  /** An execution that ends in the race: item_free compares while a link is about to write the head of that list. */
  lemma TheRaceIsReached() returns (ss: seq<Sys>, ms: seq<Move>)
    ensures IsExecution(ss, ms)
    ensures var s := ss[|ms|]; Busy(s, 0) && Busy(s, 1) && Race(s, 0, 1, Ends(0)) && ChecksOutside(s, 0)
  {
    hide Next, Legal;
    var ch := Choice(0, true, false, false, [], Pass, {});
    var s, ms1, ss1 := OneChecks(ch);
    var t, ms2, ss2 := OtherLinks(s, ch);
    ms, ss := ms1 + ms2, ss1 + ss2[1..];
    forall n {:trigger ms[n]} | 0 <= n < |ms| ensures Legal(ss[n], ms[n]) && ss[n + 1] == Next(ss[n], ms[n]) {
      if n >= |ms1| {
        assert ms[n] == ms2[n - |ms1|];
        assert ss[n] == ss2[n - |ms1|];
      } else {
        assert ms[n] == ms1[n];
      }
    }
  }
}
