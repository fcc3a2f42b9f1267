/** One worker serving many connections one event at a time, and what each event does to the map. */
module Sessions {
  import opened Layout
  import opened CacheSpec
  import opened Items
  import opened HashIndex
  import opened Slabs
  import opened SlabClasses
  import opened Pictures
  import opened ItemStore
  import opened Commands
  import opened Snapshots

  datatype Verb =
    | StoreVerb(cmd: Cmd, key: Key, value: Blob, flags: nat, sent: int, expects: nat)
    | DeleteVerb(key: Key)
    | GetVerb(key: Key)

  /**
   * What becomes readable on a connection: a command line, the last bytes of the value a store is waiting for, or that
   * the client has closed it.
   */
  datatype Input = Command(verb: Verb) | Data | HangUp

  datatype Request = Request(now: nat, conn: nat, input: Input)

  /**
   * Accepted: the item is allocated and its value awaited. Ignored: the connection was not waiting for this. Dropped:
   * the connection was closed while it waited; Closed: while it did not.
   */
  datatype Answer = Accepted | NoMemory | Told(line: Line) | Deleted(found: bool) | Value(value: Option<Reading>)
                  | Ignored | Closed | Dropped

  /** A store whose value has not arrived: the command, and what will be offered. */
  datatype Owed = Owed(cmd: Cmd, offer: Offer)

  /** Between two events: the map, the connections that wait for a value, and what an allocation would meet. */
  datatype Point = Point(s: State, owed: map<nat, Owed>, snap: Snap)

  function OfferBy(v: Verb, started: nat, now: nat): Offer
    requires v.StoreVerb?
  {
    Offer(v.key, v.value, Realtime(ClientExptime(v.sent), started, now), v.expects, FlagByte(v.flags))
  }

  // ---------- what an event allocates ----------

  /** The connection is not waiting for a value, or for nothing else. */
  predicate Ignores(p: Point, r: Request) {
    (r.input.Data? && r.conn !in p.owed) || (r.input.Command? && r.conn in p.owed)
  }

  function KeyOf(p: Point, r: Request): Key
    requires !Ignores(p, r) && !r.input.HangUp?
  {
    if r.input.Data? then p.owed[r.conn].offer.key else r.input.verb.key
  }

  /** The bytes that joining the value to the present one of its key would take; 0 if there is none, or no join. */
  function JoinSize(s: State, w: Owed): nat {
    if Joins(w.cmd) && w.offer.key in s.view then
      ItemTotal(w.offer.key, Join(w.cmd, s.view[w.offer.key].value, w.offer.value))
    else 0
  }

  /** The bytes an event allocates, if it allocates any. */
  function NeedOf(p: Point, r: Request): nat
    requires !Ignores(p, r)
  {
    if r.input.Data? then JoinSize(p.s, p.owed[r.conn])
    else if r.input.Command? && r.input.verb.StoreVerb? then ItemTotal(r.input.verb.key, r.input.verb.value)
    else 0
  }

  /** The world of an event: under the lock of its own bucket when an item is stored. */
  function Guarded(w: World, bucket: nat): World { w.(busy := (t: nat, b: nat) => b == bucket || w.busy(t, b)) }

  function WorldOf(u: Setup, p: Point, r: Request, w: World): World
    requires !Ignores(p, r)
  {
    if r.input.Data? then Guarded(w, u.bucketOf(p.owed[r.conn].offer.key)) else w
  }

  /** What the allocation of an event could cost, and whether it was sure to succeed. */
  ghost function FactsFor(u: Setup, p: Point, r: Request, w: World): Facts
    requires !Ignores(p, r)
  {
    FactsAt(u, p.snap, NeedOf(p, r), WorldOf(u, p, r, w))
  }

  // ---------- what an event does ----------

  /** The first half of a store: the item is allocated, or refused for want of memory and then a set unbinds its key. */
  ghost predicate Offers(p: Point, q: Point, r: Request, v: Verb, a: Answer, f: Facts, started: nat, lost: set<Key>)
    requires v.StoreVerb?
  {
    && Costs(lost, f.repairs, f.victims)
    && (a == Accepted || v.cmd != Set ==> AllSame(p.snap.shown, q.snap.shown))
    && match a
       case Accepted =>
         && q.s == State(p.s.view - lost, p.s.lastCas)
         && q.owed == p.owed[r.conn := Owed(v.cmd, OfferBy(v, started, r.now))]
       case NoMemory =>
         && !f.canMake && q.owed == p.owed
         && q.s == State(if v.cmd == Set then Without(p.s.view - lost, v.key) else p.s.view - lost, p.s.lastCas)
       case _ => false
  }

  /** The second half: the value is there, and the reply table decides. Only a join can cost anything or lack room. */
  ghost predicate Settles(
      p: Point, q: Point, r: Request, a: Answer, f: Facts, w: Owed, lost: set<Key>, room: bool, outcome: Outcome)
  {
    && Costs(lost, f.repairs, f.victims) && (lost == {} || Joins(w.cmd))
    && (!room ==> Joins(w.cmd) && !f.canMake)
    && Replied(p.s, q.s, w.cmd, w.offer, r.now, room, lost, outcome)
    && OwnAfter(p.snap.shown, q.snap.shown, w.offer.key, outcome == Stored, r.now)
    && q.owed == p.owed - {r.conn} && a == Told(LineOf(w.cmd, outcome))
  }

  function ReadingOf(e: Entry): Reading { Reading(e, ByteOf(ItemFlag(true, false, true, e.rest))) }

  /** A lookup, and what it sends: the reference it takes is the only thing that looks different afterwards. */
  ghost predicate Reads(p: Point, q: Point, key: Key, now: nat, a: Answer) {
    && q.s == Live(p.s, key, now) && q.owed == p.owed
    && a == Value(if Seen(p.s, key, now) then Some(ReadingOf(p.s.view[key])) else None)
    && (Seen(p.s, key, now) ==> LookedAt(p.snap.shown, q.snap.shown, key))
  }

  /** The map before and after an event that reaches the store, and the answer to it. */
  ghost predicate Done(u: Setup, p: Point, q: Point, r: Request, a: Answer, w: World, started: nat)
    requires !Ignores(p, r) && !r.input.HangUp?
  {
    var f := FactsFor(u, p, r, w);
    if r.input.Data? then exists lost, room, outcome :: Settles(p, q, r, a, f, p.owed[r.conn], lost, room, outcome)
    else
      match r.input.verb
      case StoreVerb(_, _, _, _, _, _) => exists lost :: Offers(p, q, r, r.input.verb, a, f, started, lost)
      case DeleteVerb(key) =>
        q.s == State(Without(p.s.view, key), p.s.lastCas) && q.owed == p.owed && a == Deleted(Seen(p.s, key, r.now))
      case GetVerb(key) => Reads(p, q, key, r.now, a)
  }

  /** One event: what it does to the map and to who waits, its answer, and what it may change for allocations. */
  ghost predicate Handled(u: Setup, p: Point, q: Point, r: Request, a: Answer, w: World, started: nat) {
    if Ignores(p, r) then q == p && a == Ignored
    else if r.input.HangUp? then
      q == p.(owed := p.owed - {r.conn}) && a == if r.conn in p.owed then Dropped else Closed
    else
      Ensues(u, p.snap, q.snap, KeyOf(p, r), NeedOf(p, r)) && Done(u, p, q, r, a, w, started)
  }

  /** Every value has its line end, and the snapshot is one of this map. */
  ghost predicate PointOk(u: Setup, p: Point) {
    && SnapOk(u, p.s, p.snap) && LinesEnd(p.s.view)
    && forall c {:trigger c in p.owed} :: c in p.owed ==> |p.owed[c].offer.value| >= 2
  }

  /** What the event at i meets. */
  function WorldAt(world: nat -> World, requests: seq<Request>, i: nat): World
    requires i < |requests|
  {
    world(i).(now := requests[i].now)
  }

  /** Every event is handled as it should be, in the world and at the time it came. */
  ghost predicate Serves(
      u: Setup, points: seq<Point>, requests: seq<Request>, answers: seq<Answer>, world: nat -> World, started: nat) {
    && |points| == |answers| + 1 && |answers| <= |requests|
    && (forall i {:trigger points[i]} :: 0 <= i < |points| ==> PointOk(u, points[i]))
    && forall i {:trigger answers[i]} :: 0 <= i < |answers| ==>
         Handled(u, points[i], points[i + 1], requests[i], answers[i], WorldAt(world, requests, i), started)
  }

  /** A command as the parser passes it on: a value with its line end. */
  predicate Parsed(r: Request) { r.input.Command? && r.input.verb.StoreVerb? ==> |r.input.verb.value| >= 2 }

  /** What a connection keeps while it waits for a value: its command and the item it was given. */
  datatype Pending = Pending(cmd: Cmd, it: BaseItem)

  ghost function Held(pending: map<nat, Pending>): (h: set<BaseItem>)
    ensures forall c {:trigger c in pending} :: c in pending ==> pending[c].it in h
  {
    set c | c in pending :: pending[c].it
  }

  /** The connections that wait hold one item each, filled in and linked nowhere, and no two the same. */
  ghost predicate Waits(store: LruList, pending: map<nat, Pending>)
    reads store, store.slab, store.table, store.slab.chunks, Held(pending)
  {
    && (forall c {:trigger c in pending} :: c in pending ==> 
        store.Offered(pending[c].it) && pending[c].it.refcount == 1 && |pending[c].it.value| >= 2)
    && (forall c, d :: c in pending && d in pending && pending[c].it == pending[d].it ==> c == d)
  }

  /** Between events: a valid store, no reference held but by connections that wait, every value with its line end. */
  ghost predicate Idle(store: LruList, pending: map<nat, Pending>)
    reads store, store.slab, store.table, store.queues, store.slab.chunks, store.ready, store.table.keyOf.Keys,
        Held(pending)
  {
    && store.Valid() && Injective(store.table.keyOf) && LinesEnd(store.Abs().view)
    && store.HeldAre(Held(pending)) && Waits(store, pending)
  }

  ghost function OwedBy(pending: map<nat, Pending>): map<nat, Owed>
    reads Held(pending)
  {
    map c | c in pending :: Owed(pending[c].cmd, OfferOf(pending[c].it))
  }

  ghost function Here(store: LruList, pending: map<nat, Pending>): Point
    requires Idle(store, pending)
    reads store, store.slab, store.table, store.queues, store.slab.chunks, store.ready, store.table.keyOf.Keys,
        Held(pending)
  {
    Point(store.Abs(), OwedBy(pending), SnapOf(store))
  }

  lemma PointHere(store: LruList, pending: map<nat, Pending>)
    requires Idle(store, pending)
    ensures PointOk(SetupOf(store), Here(store, pending))
  {
    hide LruList.Valid, SnapOk, LruList.Offered;
    SnapFits(store);
  }

  /** The chunks handed out to no linked item and to no connection that waits. */
  ghost function Strays(store: LruList, pending: map<nat, Pending>): set<BaseItem>
    reads store, store.slab, store.table, store.slab.chunks
  {
    store.Waiting().Keys - Held(pending)
  }

  /** How many connections were closed while they waited. */
  function Drops(answers: seq<Answer>): nat {
    if answers == [] then 0
    else Drops(answers[..|answers| - 1]) + if answers[|answers| - 1] == Dropped then 1 else 0
  }

  lemma OneMoreDrop(answers: seq<Answer>, a: Answer)
    ensures Drops(answers + [a]) == Drops(answers) + if a == Dropped then 1 else 0
  {
    assert (answers + [a])[..|answers|] == answers;
  }

  /** What nobody will ask for again stays handed out. */
  twostate lemma StraysStay(
      store: LruList, new pending0: map<nat, Pending>, new pending: map<nat, Pending>, new who: set<BaseItem>)
    requires Held(pending0) <= old(store.slab.chunks)
    requires Stay(old(store.Waiting()), store.Waiting(), who) && who <= Held(pending0)
    requires forall x {:trigger x in Held(pending)} ::
                x in Held(pending) ==> x in Held(pending0) || x !in old(store.Waiting())
    ensures old(Strays(store, pending0)) <= Strays(store, pending)
  {
    hide LruList.Waiting;
    forall x | x in old(Strays(store, pending0)) ensures x in Strays(store, pending) {
      assert x in old(store.Waiting());
    }
  }

  /** A store just made is idle. */
  lemma NewIsIdle(store: LruList)
    requires store.Valid() && store.ready == {} && store.table.keyOf == map[]
    ensures Idle(store, map[]) && Here(store, map[]).s.view == map[] && Here(store, map[]).owed == map[]
    ensures Here(store, map[]).snap.shown == map[] && Here(store, map[]).snap.mem == store.slab.Mem()
  {
    hide LruList.Valid;
    assert ViewOf(store.table.keyOf) == map[] && ShownOf(store.table.keyOf) == map[];
  }

  twostate lemma WaiterStill(store: LruList, new it: BaseItem, new who: set<BaseItem>)
    requires it in old(store.slab.chunks) && old(store.Offered(it)) && it !in who
    requires Stay(old(store.Waiting()), store.Waiting(), who)
    ensures store.Offered(it) && OfferOf(it) == old(OfferOf(it)) && it in store.Waiting()
    ensures it.refcount == old(it.refcount)
  {
    assert it in old(store.Waiting());
    assert store.Waiting()[it] == store.InfoOf(it);
  }

  /** Connections that had no part in an event still wait, for the same. */
  twostate lemma WaitsStill(store: LruList, new pending: map<nat, Pending>, new who: set<BaseItem>)
    requires Held(pending) <= old(store.slab.chunks) && Held(pending) !! who
    requires old(Waits(store, pending)) && Stay(old(store.Waiting()), store.Waiting(), who)
    ensures Waits(store, pending) && OwedBy(pending) == old(OwedBy(pending)) && Held(pending) <= store.Waiting().Keys
  {
    hide LruList.Offered, LruList.Waiting, Stay, LruList.InfoOf;
    forall c | c in pending
      ensures store.Offered(pending[c].it) && OfferOf(pending[c].it) == old(OfferOf(pending[c].it))
        && pending[c].it.refcount == old(pending[c].it.refcount) && pending[c].it in store.Waiting()
    {
      WaiterStill(store, pending[c].it, who);
    }
  }

  lemma WaitersHere(store: LruList, pending: map<nat, Pending>)
    requires Waits(store, pending)
    ensures Held(pending) <= store.Waiting().Keys && Held(pending) <= store.slab.chunks
  {
  }

  lemma LinesLess(s: State, key: Key, now: nat)
    requires LinesEnd(s.view)
    ensures LinesEnd(Without(s.view, key)) && LinesEnd(Live(s, key, now).view)
  {
  }

  lemma LinesFewer(v: View, lost: set<Key>, key: Key)
    requires LinesEnd(v)
    ensures LinesEnd(v - lost) && LinesEnd(Without(v - lost, key))
  {
  }

  lemma HeldPlus(pending: map<nat, Pending>, conn: nat, p: Pending)
    requires conn !in pending
    ensures Held(pending[conn := p]) == Held(pending) + {p.it}
  {
    var next := pending[conn := p];
    assert conn in next && next[conn] == p;
    forall x | x in Held(pending) ensures x in Held(next) {
      var c :| c in pending && pending[c].it == x;
      assert c in next && next[c] == pending[c];
    }
  }

  lemma OneMoreWaits(store: LruList, pending: map<nat, Pending>, conn: nat, p: Pending)
    requires Waits(store, pending) && conn !in pending
    requires store.Offered(p.it) && p.it.refcount == 1 && |p.it.value| >= 2
    requires p.it !in Held(pending)
    ensures Waits(store, pending[conn := p]) && Held(pending[conn := p]) == Held(pending) + {p.it}
    ensures OwedBy(pending[conn := p]) == OwedBy(pending)[conn := Owed(p.cmd, OfferOf(p.it))]
  {
    hide LruList.Offered;
    HeldPlus(pending, conn, p);
    var next := pending[conn := p];
    assert forall c {:trigger c in next} :: c in pending ==> c in next && next[c] == pending[c];
    assert conn in next && next[conn] == p;
  }

  lemma OneLessWaits(store: LruList, pending: map<nat, Pending>, conn: nat)
    requires Waits(store, pending) && conn in pending
    ensures Held(pending - {conn}) == Held(pending) - {pending[conn].it}
    ensures OwedBy(pending - {conn}) == OwedBy(pending) - {conn}
    ensures Waits(store, pending - {conn})
  {
    var next := pending - {conn};
    assert forall c {:trigger c in next} :: c in next ==> c in pending && next[c] == pending[c];
    forall x | x in Held(pending) - {pending[conn].it} ensures x in Held(next) {
      var c :| c in pending && pending[c].it == x;
      assert c in next;
    }
  }

  lemma GuardedIsLocked(w: World, bucket: nat)
    ensures Locked(Guarded(w, bucket).busy, bucket) && Guarded(w, bucket).now == w.now
  {
  }

  lemma MineWaits(store: LruList, pending: map<nat, Pending>, conn: nat)
    requires Waits(store, pending) && conn in pending
    ensures store.Offered(pending[conn].it) && pending[conn].it.refcount == 1 && |pending[conn].it.value| >= 2
  {
  }

  lemma StrayIf(store: LruList, pending: map<nat, Pending>, x: BaseItem)
    ensures x in Strays(store, pending) <==> x in store.Waiting() && x !in Held(pending)
  {
  }

  lemma NeedHere(store: LruList, it: BaseItem, cmd: Cmd)
    requires Injective(store.table.keyOf)
    ensures JoinSize(store.Abs(), Owed(cmd, OfferOf(it)))
         == if Joins(cmd) then store.JoinNeed(it.key, it.value, cmd) else 0
  {
    hide ViewOf;
  }

  /** What an allocation for an offered item says in terms of the facts. */
  lemma MadeMeans(b: Budget, it: BaseItem?, gone: set<BaseItem>, lost: set<Key>)
    requires Made(b, it, gone, lost)
    ensures Costs(lost, FactsOf(b).repairs, FactsOf(b).victims) && (it == null ==> !FactsOf(b).canMake)
    ensures it != null ==> ClassFor(b.geo, it.home, b.need)
  {
    hide Costs;
    SpentCosts(b, it, gone, lost);
  }

  lemma OutlayMeans(b: Budget, joins: bool, room: bool, it: BaseItem?, gone: set<BaseItem>, lost: set<Key>)
    requires Outlay(b, joins, room, it, gone, lost)
    ensures it != null ==> joins && ClassFor(b.geo, it.home, b.need)
  {
  }

  /** The second half of a store, with what it took out. */
  lemma DataDone(
      p: Point, q: Point, r: Request, a: Answer, f: Facts, w: Owed, b: Budget, made: BaseItem?, gone: set<BaseItem>,
      lost: set<Key>, room: bool, outcome: Outcome)
    requires Outlay(b, Joins(w.cmd), room, made, gone, lost) && (Joins(w.cmd) ==> f == FactsOf(b))
    requires Replied(p.s, q.s, w.cmd, w.offer, r.now, room, lost, outcome)
    requires OwnAfter(p.snap.shown, q.snap.shown, w.offer.key, outcome == Stored, r.now)
    requires q.owed == p.owed - {r.conn} && a == Told(LineOf(w.cmd, outcome))
    ensures Settles(p, q, r, a, f, w, lost, room, outcome)
  {
    hide Replied, LineOf, OwnAfter;
    SpentCosts(b, made, gone, lost);
    assert f == FactsOf(b) || lost == {};
  }

  /** The value a connection waited for: the item is stored under the lock of its bucket. */
  method ServeData(store: LruList, pending0: map<nat, Pending>, r: Request, w: World, started: nat)
    returns (answer: Answer, pending: map<nat, Pending>)
    requires Idle(store, pending0) && store.clock <= r.now == w.now && r.input.Data? && r.conn in pending0
    modifies store, store.table, store.queues, store.slab, store.slab.chunks
    ensures Idle(store, pending) && store.clock <= r.now && answer != Dropped
    ensures Handled(SetupOf(store), old(Here(store, pending0)), Here(store, pending), r, answer, w, started)
    ensures store.slab.Growth() && old(Strays(store, pending0)) <= Strays(store, pending)
    ensures pending0[r.conn].it in Strays(store, pending) <==> old(pending0[r.conn].it.flag.Dirty())
    ensures old(store.slab.chunks) <= store.slab.chunks && fresh(store.slab.chunks - old(store.slab.chunks))
  {
    hide LruList.Valid, LruList.HandedOut, LruList.OneAtMost, LruList.HeldAre, LinesEnd, Waits, Stay, LruList.Waiting;
    hide LruList.Offered, ViewOf, Strays, LruList.BudgetOf, Outlay, FactsAt, SnapOf, SameShown, ShownOf, Ensues;
    hide FactsOf, OwnAfter;
    hide Grew, LruList.CanMake, LruList.JoinNeed, Costs, Replied, LineOf, Locked;
    var it, cmd := pending0[r.conn].it, pending0[r.conn].cmd;
    var w2 := Guarded(w, store.table.bucketOf(it.key));
    ghost var p, n := Here(store, pending0), store.JoinNeed(it.key, it.value, cmd);
    ghost var b, owed := store.BudgetOf(n, w2), Owed(cmd, OfferOf(it));
    WaitersHere(store, pending0);
    FactsAgree(store, n, w2);
    OneLessWaits(store, pending0, r.conn);
    GuardedIsLocked(w, store.table.bucketOf(it.key));
    MineWaits(store, pending0, r.conn);
    NeedHere(store, it, cmd);
    store.BudgetSays(n, w2);
    SnapShows(store);
    var line: Line;
    ghost var outcome: Outcome, made: BaseItem?, gone: set<BaseItem>, room: bool, lost: set<Key>;
    line, outcome, made, gone, room, lost := StoreOffered(store, it, cmd, w2, Held(pending0));
    pending, answer := pending0 - {r.conn}, Told(line);
    WaitsStill(store, pending, {it});
    OutlayMeans(b, Joins(cmd), room, made, gone, lost);
    SnapShows(store);
    EnsuesHere(store, made, owed.offer.key, NeedOf(p, r));
    StraysStay(store, pending0, pending, {it});
    DataDone(
      p, Here(store, pending), r, answer, FactsFor(SetupOf(store), p, r, w), owed, b, made, gone, lost, room, outcome);
    StrayIf(store, pending, it);
  }

  /** A command line that starts a store. */
  method ServeOffer(store: LruList, pending0: map<nat, Pending>, r: Request, w: World, started: nat)
    returns (answer: Answer, pending: map<nat, Pending>)
    requires Idle(store, pending0) && Parsed(r) && store.clock <= r.now == w.now
    requires r.input.Command? && r.input.verb.StoreVerb? && r.conn !in pending0
    modifies store, store.table, store.queues, store.slab, store.slab.chunks
    ensures Idle(store, pending) && store.clock <= r.now && answer != Dropped
    ensures Handled(SetupOf(store), old(Here(store, pending0)), Here(store, pending), r, answer, w, started)
    ensures store.slab.Growth() && old(Strays(store, pending0)) <= Strays(store, pending)
    ensures old(store.slab.chunks) <= store.slab.chunks && fresh(store.slab.chunks - old(store.slab.chunks))
  {
    hide LruList.Valid, LruList.HandedOut, LruList.OneAtMost, ViewOf, LruList.HeldAre, LinesEnd, Waits, Without, Stay;
    hide LruList.Waiting, LruList.Offered, Strays, LruList.BudgetOf, Made, FactsAt, SnapOf, SameShown, AllSame, ShownOf;
    hide Ensues, Grew, ItemTotal, LruList.CanMake, Costs, Realtime, ClientExptime, FlagByte, GoodTable, LruList.Fits;
    hide FactsOf;
    var v := r.input.verb;
    ghost var p, n := Here(store, pending0), ItemTotal(v.key, v.value);
    ghost var b := store.BudgetOf(n, w);
    WaitersHere(store, pending0);
    FactsAgree(store, n, w);
    store.BudgetSays(n, w);
    SnapShows(store);
    var it: BaseItem?;
    ghost var gone: set<BaseItem>, lost: set<Key>;
    it, gone, lost := OfferItem(store, v.cmd, v.key, v.value, v.flags, v.sent, v.expects, started, w, Held(pending0));
    MadeMeans(b, it, gone, lost);
    LinesFewer(p.s.view, lost, v.key);
    WaitsStill(store, pending0, {});
    EnsuesHere(store, it, v.key, n);
    if it == null {
      assert Held(pending0) + Only(it) == Held(pending0);
      pending, answer := pending0, NoMemory;
    } else {
      pending, answer := pending0[r.conn := Pending(v.cmd, it)], Accepted;
      OneMoreWaits(store, pending0, r.conn, Pending(v.cmd, it));
    }
    StraysStay(store, pending0, pending, {});
    assert FactsFor(SetupOf(store), p, r, w) == FactsOf(b);
    SnapShows(store);
    assert Offers(p, Here(store, pending), r, v, answer, FactsOf(b), started, lost);
  }

  method ServeDelete(store: LruList, pending: map<nat, Pending>, r: Request, w: World, started: nat)
    returns (answer: Answer)
    requires Idle(store, pending) && store.clock <= r.now == w.now
    requires r.input.Command? && r.input.verb.DeleteVerb? && r.conn !in pending
    modifies store, store.table, store.queues, store.slab, store.slab.chunks
    ensures Idle(store, pending) && store.clock <= r.now && answer != Dropped
    ensures Handled(SetupOf(store), old(Here(store, pending)), Here(store, pending), r, answer, w, started)
    ensures store.slab.Growth() && old(Strays(store, pending)) <= Strays(store, pending)
    ensures store.slab.chunks == old(store.slab.chunks)
  {
    hide LruList.Valid, LruList.HandedOut, ViewOf, LruList.HeldAre, LinesEnd, Waits, Live, Without, Seen, Stay;
    hide LruList.Waiting, Strays, SameShown, ShownOf, Ensues, SnapOf, Grew;
    GrewNot(store.slab.Mem(), store.slab.memLimit);
    WaitersHere(store, pending);
    LinesLess(store.Abs(), r.input.verb.key, r.now);
    var found := DeleteKey(store, r.input.verb.key, r.now, Held(pending));
    WaitsStill(store, pending, {});
    EnsuesHere(store, null, r.input.verb.key, 0);
    StraysStay(store, pending, pending, {});
    answer := Deleted(found);
  }

  method ServeGet(store: LruList, pending: map<nat, Pending>, r: Request, w: World, started: nat)
    returns (answer: Answer)
    requires Idle(store, pending) && store.clock <= r.now == w.now
    requires r.input.Command? && r.input.verb.GetVerb? && r.conn !in pending
    modifies store, store.table, store.queues, store.slab, store.slab.chunks
    ensures Idle(store, pending) && store.clock <= r.now && answer != Dropped
    ensures Handled(SetupOf(store), old(Here(store, pending)), Here(store, pending), r, answer, w, started)
    ensures store.slab.Growth() && old(Strays(store, pending)) <= Strays(store, pending)
    ensures store.slab.chunks == old(store.slab.chunks)
  {
    hide LruList.Valid, LruList.HandedOut, ViewOf, LruList.HeldAre, LinesEnd, Waits, Live, Without, Seen, Stay;
    hide LruList.Waiting, Strays, SameShown, ShownOf, Ensues, SnapOf, Grew, LookedAt;
    GrewNot(store.slab.Mem(), store.slab.memLimit);
    WaitersHere(store, pending);
    LinesLess(store.Abs(), r.input.verb.key, r.now);
    ghost var p := Here(store, pending);
    SnapShows(store);
    var value := GetValue(store, r.input.verb.key, r.now, Held(pending));
    WaitsStill(store, pending, {});
    EnsuesHere(store, null, r.input.verb.key, 0);
    StraysStay(store, pending, pending, {});
    answer := Value(value);
    SnapShows(store);
    assert Reads(p, Here(store, pending), r.input.verb.key, r.now, answer);
  }

  /** A connection is closed. If it was waiting, its chunk stays handed out. */
  method ServeHangUp(store: LruList, pending0: map<nat, Pending>, r: Request, w: World, started: nat)
    returns (answer: Answer, pending: map<nat, Pending>)
    requires Idle(store, pending0) && store.clock <= r.now == w.now && r.input.HangUp?
    modifies store.slab.chunks
    ensures Idle(store, pending) && store.clock <= r.now && (answer == Dropped <==> r.conn in pending0)
    ensures Handled(SetupOf(store), old(Here(store, pending0)), Here(store, pending), r, answer, w, started)
    ensures store.slab.Growth() && old(Strays(store, pending0)) <= Strays(store, pending)
    ensures r.conn in pending0 ==>
              pending0[r.conn].it in Strays(store, pending) && pending0[r.conn].it !in old(Strays(store, pending0))
  {
    hide LruList.Valid, LruList.HandedOut, ViewOf, LruList.HeldAre, LinesEnd, Waits, Stay;
    hide LruList.Waiting, Strays, ShownOf, Grew, LruList.Offered;
    GrewNot(store.slab.Mem(), store.slab.memLimit);
    if r.conn !in pending0 {
      return Closed, pending0;
    }
    ghost var it := pending0[r.conn].it;
    WaitersHere(store, pending0);
    OneLessWaits(store, pending0, r.conn);
    MineWaits(store, pending0, r.conn);
    StrayIf(store, pending0, it);
    Abandon(store, pending0[r.conn].it, Held(pending0));
    answer, pending := Dropped, pending0 - {r.conn};
    WaitsStill(store, pending, {it});
    StraysStay(store, pending0, pending, {it});
    StrayIf(store, pending, it);
  }

  /**
   * One event. A chunk that nobody will ask for again stays handed out, and the chunk of a connection that stops
   * waiting becomes one of those exactly when the connection is closed or its client flags had bit 0 or 2 set.
   */
  method ServeOne(store: LruList, pending0: map<nat, Pending>, r: Request, w: World, started: nat)
    returns (answer: Answer, pending: map<nat, Pending>)
    requires Idle(store, pending0) && Parsed(r) && store.clock <= r.now == w.now
    modifies store, store.table, store.queues, store.slab, store.slab.chunks
    ensures Idle(store, pending) && store.clock <= r.now && (answer == Dropped ==> r.conn in pending0)
    ensures Handled(SetupOf(store), old(Here(store, pending0)), Here(store, pending), r, answer, w, started)
    ensures store.slab.Growth() && old(Strays(store, pending0)) <= Strays(store, pending)
    ensures r.conn in pending0 && !r.input.Command? ==>
              var it := pending0[r.conn].it;
              it in Strays(store, pending) <==> r.input.HangUp? || old(it.flag.Dirty())
    ensures |Strays(store, pending)| >= old(|Strays(store, pending0)|) + if answer == Dropped then 1 else 0
    ensures old(store.slab.chunks) <= store.slab.chunks && fresh(store.slab.chunks - old(store.slab.chunks))
  {
    hide LruList.Valid, LruList.HandedOut, ViewOf, LruList.HeldAre, LinesEnd, Waits, Live, Without, Seen, Stay;
    hide LruList.Waiting, Strays, SameShown, ShownOf, LookedAt, Ensues, SnapOf, Grew;
    GrewNot(store.slab.Mem(), store.slab.memLimit);
    if r.input.HangUp? {
      answer, pending := ServeHangUp(store, pending0, r, w, started);
    } else if r.input.Data? == (r.conn !in pending0) {
      answer, pending := Ignored, pending0;
    } else if r.input.Data? {
      answer, pending := ServeData(store, pending0, r, w, started);
    } else {
      match r.input.verb
      case StoreVerb(_, _, _, _, _, _) =>
        answer, pending := ServeOffer(store, pending0, r, w, started);
      case DeleteVerb(key) =>
        pending := pending0;
        answer := ServeDelete(store, pending0, r, w, started);
      case GetVerb(key) =>
        pending := pending0;
        answer := ServeGet(store, pending0, r, w, started);
    }
    FewerThan(old(Strays(store, pending0)), Strays(store, pending));
    if answer == Dropped { FewerThan(old(Strays(store, pending0)) + {pending0[r.conn].it}, Strays(store, pending)); }
  }

  /**
   * The event loop of one worker, under a clock that never goes back: each event is a command line on a connection, the
   * value that a connection waits for, or the end of a connection, and between the two halves of a store any other
   * connection may be served. The store stays in order, every event gets the answer of the table, and references are
   * held by waiting connections alone. Memory only grows, and past the limit no class that owns a page gets another. A
   * chunk that nobody will ask for again is never handed out to anybody else, and every connection closed while it
   * waited leaves one more of them.
   */
  method Serve(store: LruList, requests: seq<Request>, world: nat -> World, started: nat, pending0: map<nat, Pending>)
    returns (answers: seq<Answer>, pending: map<nat, Pending>, ghost points: seq<Point>)
    requires Idle(store, pending0)
    requires forall i {:trigger requests[i]} ::
                0 <= i < |requests| ==> Parsed(requests[i]) && store.clock <= requests[i].now
    requires forall i, j :: 0 <= i < j < |requests| ==> requests[i].now <= requests[j].now
    modifies store, store.table, store.queues, store.slab, store.slab.chunks
    ensures Idle(store, pending) && store.slab.Growth()
    ensures |answers| == |requests| && Serves(SetupOf(store), points, requests, answers, world, started)
    ensures points[0] == old(Here(store, pending0)) && points[|requests|] == Here(store, pending)
    ensures old(Strays(store, pending0)) <= Strays(store, pending)
    ensures |Strays(store, pending)| >= old(|Strays(store, pending0)|) + Drops(answers)
  {
    hide Idle, Handled, Grew, Here, PointOk, Strays;
    answers, pending, points := [], pending0, [Here(store, pending0)];
    GrewNot(store.slab.Mem(), store.slab.memLimit);
    PointHere(store, pending0);
    var i := 0;
    while i < |requests|
      invariant 0 <= i <= |requests| && |answers| == i
      invariant Serves(SetupOf(store), points, requests, answers, world, started)
      invariant Idle(store, pending) && points[0] == old(Here(store, pending0)) && points[i] == Here(store, pending)
      invariant forall j {:trigger requests[j]} :: i <= j < |requests| ==> store.clock <= requests[j].now
      invariant old(store.slab.chunks) <= store.slab.chunks && fresh(store.slab.chunks - old(store.slab.chunks))
      invariant store.slab.Growth()
      invariant old(Strays(store, pending0)) <= Strays(store, pending)
      invariant |Strays(store, pending)| >= old(|Strays(store, pending0)|) + Drops(answers)
    {
      ghost var mem, strays := store.slab.Mem(), Strays(store, pending);
      var answer: Answer;
      answer, pending := ServeOne(store, pending, requests[i], WorldAt(world, requests, i), started);
      GrewOn(old(store.slab.Mem()), mem, store.slab.Mem(), store.slab.memLimit);
      PointHere(store, pending);
      OneMoreDrop(answers, answer);
      answers, points := answers + [answer], points + [Here(store, pending)];
      i := i + 1;
    }
  }
}
