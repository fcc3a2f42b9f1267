/** The connection's side of the store: set and its kin, get, delete, and the expiry a client asks for. */
module Commands {
  import opened Layout
  import opened CacheSpec
  import opened Items
  import opened Slabs
  import opened SlabClasses
  import opened HashIndex
  import opened Pictures
  import opened ItemStore

  // ---------- expiry times ----------

  /** realtime: the absolute 32-bit time for what a client sent; 0 stays "never". */
  function Realtime(exptime: nat, started: nat, now: nat): nat {
    if exptime == 0 then 0
    else if exptime > REALTIME_MAXDELTA then
      if exptime <= started then 1 else (exptime - started) % UINT32
    else Add32(exptime, now)
  }

  /** A negative expiry is replaced by one second less than thirty days. */
  function ClientExptime(sent: int): nat { if sent < 0 then REALTIME_MAXDELTA - 1 else sent }

  /**
   * When an item with the expiry a client sent is gone, the server having started at time 0: never for 0, at that time
   * for more than thirty days, and that many seconds from now otherwise.
   */
  lemma ExpiryMeaning(sent: int, now: nat, t: nat, e: Entry)
    requires e.exptime == Realtime(ClientExptime(sent), 0, now) && now + REALTIME_MAXDELTA < UINT32 && sent < UINT32
    ensures Expired(e, t) <==>
            sent != 0 && t >= if sent > REALTIME_MAXDELTA then sent
                              else if sent < 0 then now + REALTIME_MAXDELTA - 1
                              else now + sent
  {
  }

  /**
   * "An item stored with a nonzero expiry expires" is false: with the clock 100 seconds before the 32-bit wrap, an
   * expiry of 100 seconds is stored as 0, which is never.
   */
  lemma ExpiryCanBeLost()
    ensures Realtime(100, 0, UINT32 - 100) == 0
  {
  }

  /**
   * It fails exactly when the sum of a relative expiry and the clock, or the distance to the start, is a multiple of
   * 2^32.
   */
  lemma ExpiryKeptIff(exptime: nat, started: nat, now: nat)
    requires 0 < exptime < UINT32 && now < UINT32 && started < UINT32
    ensures Realtime(exptime, started, now) == 0 <==> exptime <= REALTIME_MAXDELTA && exptime + now == UINT32
  {
  }

  // ---------- delete ----------

  /** do_item_unlink and do_item_remove of an item the caller holds. */
  method UnlinkAndRelease(store: LruList, it: BaseItem)
    requires store.Valid() && it in store.ready && it in store.table.keyOf && it.handles > 0 && it.refcount > 1
    requires Injective(store.table.keyOf)
    modifies store`ready, store.table, store.queues, store.slab`memBase, store.slab`free, store.slab`out
    modifies it`refcount, it`handles, it`leaks, it`exptime, it`clsid, it`flag
    modifies store.slab.chunks`hNext, store.slab.chunks`next, store.slab.chunks`prev
    ensures store.Valid() && store.slab.chunks == old(store.slab.chunks) && Injective(store.table.keyOf)
    ensures store.Abs() == State(Without(old(store.Abs()).view, old(store.table.keyOf)[it]), store.casId)
    ensures Returned(old(store.Handles()), store.Handles(), it, null)
    ensures store.OneAtMost(null) && Stay(old(store.Waiting()), store.Waiting(), {})
    ensures SameShown(old(ShownOf(store.table.keyOf)), ShownOf(store.table.keyOf), old(store.table.keyOf)[it])
    ensures forall x {:trigger x in store.slab.chunks} :: x in store.slab.chunks && x != it ==> store.Untouched(x)
  {
    hide SameShown, ShownOf;
    hide LruList.Valid, LruList.InfoOf, ViewOf, ScalarsOf, Without, Returned, LruList.Abs, LruList.HandedOut, Stay;
    hide LruList.Waiting;
    store.KeysInChunks();
    store.KeysAgree();
    store.NotWaiting(it);
    store.UnlinkBound(it);
    store.Release(it);
    store.ReturnedBoth(it, null);
    store.StayBy(Only(it), {});
    store.KeysInChunks();
    store.KeysAgree();
    store.ShownBy(old(store.table.keyOf)[it], {});
  }

  lemma LiveThenGone(s: State, key: Key, now: nat)
    ensures Without(Live(s, key, now).view, key) == Without(s.view, key)
    ensures key !in Live(s, key, now).view ==> Live(s, key, now) == State(Without(s.view, key), s.lastCas)
    ensures key in Live(s, key, now).view <==> Seen(s, key, now)
    ensures Seen(s, key, now) ==> key in s.view && Live(s, key, now) == s
    ensures Live(s, key, now).lastCas == s.lastCas
  {
    assert Without(Live(s, key, now).view, key) == Without(s.view, key);
    if key !in s.view { assert Without(s.view, key) == s.view; }
  }

  /** The lookup of delete_command and get_command. */
  method LookUp(store: LruList, key: Key, now: nat, ghost held: set<BaseItem>) returns (it: BaseItem?)
    requires store.Valid()
    modifies store`ready, store.table, store.queues, store.slab`memBase, store.slab`free, store.slab`out
    modifies store.slab.chunks`refcount, store.slab.chunks`handles, store.slab.chunks`leaks
    modifies store.slab.chunks`exptime, store.slab.chunks`clsid, store.slab.chunks`flag
    modifies store.slab.chunks`hNext, store.slab.chunks`next, store.slab.chunks`prev
    ensures store.Valid() && store.slab.chunks == old(store.slab.chunks) && Injective(store.table.keyOf)
    ensures store.Abs() == Live(old(store.Abs()), key, now)
    ensures it == null <==> !Seen(old(store.Abs()), key, now)
    ensures it == null ==> store.Abs() == State(Without(old(store.Abs()).view, key), store.casId)
    ensures it != null ==>
              && it in store.ready && it in store.table.keyOf && store.table.keyOf[it] == key && it.handles > 0
              && it.refcount > 1 && it in store.slab.chunks && old(store.Owner(it, key)) && it !in store.Waiting()
              && key in old(store.Abs()).view && EntryOf(it) == old(store.Abs()).view[key]
              && it.flag == ItemFlag(true, false, true, EntryOf(it).rest)
    ensures Borrowed(old(store.Handles()), store.Handles(), it)
    ensures it == null && old(store.HeldAre(held)) ==> store.HeldAre(held)
    ensures store.OneAtMost(null) && Stay(old(store.Waiting()), store.Waiting(), {})
    ensures SameShown(old(ShownOf(store.table.keyOf)), ShownOf(store.table.keyOf), key)
    ensures it != null ==> LookedAt(old(ShownOf(store.table.keyOf)), ShownOf(store.table.keyOf), key)
    ensures forall x {:trigger x in store.slab.chunks} ::
                x in store.slab.chunks && !old(store.Owner(x, key)) ==> store.Untouched(x)
  {
    hide SameShown, ShownOf, LookedAt, LruList.Valid, LruList.InfoOf, LruList.Handles, ViewOf, Live, ScalarsOf, Without;
    hide Seen, GoodTable, Borrowed, OnlyHeld, LruList.HandedOut, LruList.OneAtMost, Stay, LruList.Waiting;
    store.ClassTable();
    LiveThenGone(store.Abs(), key, now);
    store.KeysInChunks();
    ghost var h := store.Handles();
    it := store.DoItemGet(key, now);
    store.KeysInChunks();
    store.TakenOne(key, it);
    if it == null {
      if OnlyHeld(h, held) { NothingTaken(h, store.Handles(), held); }
    } else {
      store.WaitsIf(it);
      store.ReadyHere(it);
    }
  }

  /** The body of delete_command, also used when a set finds no memory: look up, unlink, release. */
  method DeleteKey(store: LruList, key: Key, now: nat, ghost held: set<BaseItem>) returns (found: bool)
    requires store.Valid()
    modifies store`ready, store.table, store.queues, store.slab`memBase, store.slab`free, store.slab`out
    modifies store.slab.chunks`refcount, store.slab.chunks`handles, store.slab.chunks`leaks
    modifies store.slab.chunks`exptime, store.slab.chunks`clsid, store.slab.chunks`flag
    modifies store.slab.chunks`hNext, store.slab.chunks`next, store.slab.chunks`prev
    ensures store.Valid() && store.slab.chunks == old(store.slab.chunks) && Injective(store.table.keyOf)
    ensures store.Abs() == State(Without(old(store.Abs()).view, key), store.casId)
    ensures found <==> Seen(old(store.Abs()), key, now)
    ensures old(store.HeldAre(held)) ==> store.HeldAre(held)
    ensures store.OneAtMost(null) && Stay(old(store.Waiting()), store.Waiting(), {})
    ensures SameShown(old(ShownOf(store.table.keyOf)), ShownOf(store.table.keyOf), key)
    ensures forall x {:trigger x in store.slab.chunks} ::
                x in store.slab.chunks && !old(store.Owner(x, key)) ==> store.Untouched(x)
  {
    hide SameShown, ShownOf, LookedAt, LruList.Valid, LruList.InfoOf, LruList.Handles, LruList.Abs, ViewOf, Live;
    hide ScalarsOf, Without, Seen, Borrowed, Returned, GoodTable, OnlyHeld, LruList.Waiting;
    hide LruList.HandedOut, LruList.OneAtMost, Stay;
    store.ClassTable();
    LiveThenGone(store.Abs(), key, now);
    ghost var h := store.Handles();
    var it := LookUp(store, key, now, held);
    if it == null { return false; }
    ghost var s0, s1, h1 := old(ShownOf(store.table.keyOf)), ShownOf(store.table.keyOf), store.Handles();
    store.Took(null);
    ghost var m0, m1, handed := old(store.Waiting()), store.Waiting(), store.HandedOut();
    label found:
    UnlinkAndRelease(store, it);
    SameShownOn(s0, s1, ShownOf(store.table.keyOf), key);
    StayOn(m0, m1, store.Waiting(), {}, {}, {});
    store.Took@found(null);
    store.HandsAdd(handed, null);
    if OnlyHeld(h, held) { LookedUpAndReturned(h, h1, store.Handles(), it, held); }
    found := true;
  }

  // ---------- get ----------

  /** What a get sends: the entry, and the flag byte of the item, with the bits the store uses for itself. */
  datatype Reading = Reading(entry: Entry, flags: nat)

  /** The flag byte as a number. */
  function ByteOf(flag: ItemFlag): nat {
    (if flag.linked then 1 else 0) + (if flag.slabbed then 4 else 0) + (if flag.fetched then 8 else 0) + flag.rest
  }

  /** A client never gets back the flags it stored: the byte sent is odd, and odd flags never reach the index. */
  lemma FlagsNeverComeBack(flags: nat, sent: nat)
    requires !FlagByte(flags).Dirty() && sent == ByteOf(ItemFlag(true, false, true, FlagByte(flags).rest))
    ensures sent != flags
    ensures flags < 256 ==> sent == flags + 1 + if flags / 8 % 2 == 1 then 0 else 8
  {
    Bits(flags);
    var rest := FlagByte(flags).rest;
    assert sent == 9 + rest;
  }

  /** The caller forgets a reference to a linked item; the count stays. */
  method Leak(store: LruList, it: BaseItem)
    requires store.Valid() && it in store.ready && it in store.table.keyOf && it.handles > 0
    requires Injective(store.table.keyOf)
    modifies it`refcount, it`flag, it`exptime, it`handles, it`leaks
    ensures store.Valid() && store.slab.chunks == old(store.slab.chunks) && store.table.keyOf == old(store.table.keyOf)
    ensures Injective(store.table.keyOf) && store.Abs() == old(store.Abs()) && it.leaks == old(it.leaks) + 1
    ensures it.refcount == old(it.refcount)
    ensures Returned(old(store.Handles()), store.Handles(), it, null)
    ensures store.OneAtMost(null) && Stay(old(store.Waiting()), store.Waiting(), {})
    ensures ShownOf(store.table.keyOf) == old(ShownOf(store.table.keyOf))
    ensures forall x {:trigger x in store.slab.chunks} :: x in store.slab.chunks && x != it ==> store.Untouched(x)
  {
    hide ShownOf;
    hide LruList.Valid, ViewOf, LruList.HandedOut, Stay, LruList.Waiting;
    store.ReadyHere(it);
    store.KeysInChunks();
    store.NotWaiting(it);
    store.KeysAgree();
    store.SetMeta(it, it.refcount, it.flag, it.exptime, it.handles - 1, it.leaks + 1);
    SameView(store.table.keyOf);
    store.ReturnedBoth(it, null);
    store.StayBy(Only(it), {});
    store.KeysAgree();
    store.ShownSame();
  }

  /** get_command: the value is copied out, and the reference taken by the lookup is never given back. */
  method GetValue(store: LruList, key: Key, now: nat, ghost held: set<BaseItem>) returns (r: Option<Reading>)
    requires store.Valid()
    modifies store`ready, store.table, store.queues, store.slab`memBase, store.slab`free, store.slab`out
    modifies store.slab.chunks`refcount, store.slab.chunks`handles, store.slab.chunks`leaks
    modifies store.slab.chunks`exptime, store.slab.chunks`clsid, store.slab.chunks`flag
    modifies store.slab.chunks`hNext, store.slab.chunks`next, store.slab.chunks`prev
    ensures store.Valid() && store.slab.chunks == old(store.slab.chunks) && Injective(store.table.keyOf)
    ensures store.Abs() == Live(old(store.Abs()), key, now)
    ensures r.Some? <==> Seen(old(store.Abs()), key, now)
    ensures r.Some? ==> key in old(store.Abs()).view && r.value.entry == old(store.Abs()).view[key]
    ensures r.Some? ==> r.value.flags == ByteOf(ItemFlag(true, false, true, r.value.entry.rest))
    ensures old(store.HeldAre(held)) ==> store.HeldAre(held)
    ensures store.OneAtMost(null) && Stay(old(store.Waiting()), store.Waiting(), {})
    ensures SameShown(old(ShownOf(store.table.keyOf)), ShownOf(store.table.keyOf), key)
    ensures r.Some? ==> LookedAt(old(ShownOf(store.table.keyOf)), ShownOf(store.table.keyOf), key)
    ensures forall x {:trigger x in store.slab.chunks} ::
                x in store.slab.chunks && !old(store.Owner(x, key)) ==> store.Untouched(x)
  {
    hide SameShown, ShownOf, LookedAt, LruList.Valid, LruList.InfoOf, LruList.Handles, LruList.Abs, ViewOf, Live;
    hide ScalarsOf, Without, Seen, Borrowed, Returned, GoodTable, OnlyHeld, ByteOf, LruList.Waiting;
    hide LruList.HandedOut, LruList.OneAtMost, Stay;
    ghost var h := store.Handles();
    var it := LookUp(store, key, now, held);
    if it == null { return None; }
    r := Some(Reading(EntryOf(it), ByteOf(it.flag)));
    ghost var h1 := store.Handles();
    store.Took(null);
    ghost var m0, m1, handed := old(store.Waiting()), store.Waiting(), store.HandedOut();
    label found:
    Leak(store, it);
    StayOn(m0, m1, store.Waiting(), {}, {}, {});
    store.Took@found(null);
    store.HandsAdd(handed, null);
    if OnlyHeld(h, held) { LookedUpAndReturned(h, h1, store.Handles(), it, held); }
  }

  // ---------- set, add, replace, append, prepend, cas ----------

  /** No room: a set still takes the old binding away. */
  method RefuseOffer(store: LruList, cmd: Cmd, key: Key, now: nat, ghost held: set<BaseItem>)
    requires store.Valid() && Injective(store.table.keyOf)
    modifies store`ready, store.table, store.queues, store.slab`memBase, store.slab`free, store.slab`out
    modifies store.slab.chunks`refcount, store.slab.chunks`handles, store.slab.chunks`leaks
    modifies store.slab.chunks`exptime, store.slab.chunks`clsid, store.slab.chunks`flag
    modifies store.slab.chunks`hNext, store.slab.chunks`next, store.slab.chunks`prev
    ensures store.Valid() && store.slab.chunks == old(store.slab.chunks) && Injective(store.table.keyOf)
    ensures store.Abs() == if cmd == Set then State(Without(old(store.Abs()).view, key), store.casId)
              else old(store.Abs())
    ensures store.OneAtMost(null) && Stay(old(store.Waiting()), store.Waiting(), {})
    ensures SameShown(old(ShownOf(store.table.keyOf)), ShownOf(store.table.keyOf), key)
    ensures cmd != Set ==> AllSame(old(ShownOf(store.table.keyOf)), ShownOf(store.table.keyOf))
    ensures old(store.HeldAre(held)) ==> store.HeldAre(held)
  {
    hide LruList.Valid, LruList.InfoOf, LruList.HeldAre, ViewOf, Without, LruList.Waiting, LruList.HandedOut;
    hide LruList.Abs, ShownOf;
    if cmd == Set {
      var found := DeleteKey(store, key, now, held);
    }
  }

  twostate lemma KeptByAlloc(store: LruList, new it: BaseItem?, new gone: set<BaseItem>, new ntotal: nat)
    requires store.ready == old(store.ready) - gone && old(store.ready) <= old(store.slab.chunks) <= store.slab.chunks
    requires it != null ==> store.Raw(it, ntotal)
    requires store.Spared(it, gone)
    ensures Borrowed(old(store.Handles()), store.Handles(), null)
  {
    forall x | x in store.ready ensures x.handles == old(x.handles) {
      assert x in store.slab.chunks && store.Untouched(x);
    }
    store.HandlesKept();
  }

  /** The allocation, and who holds and who waits after it. */
  method AllocForOffer(store: LruList, n: nat, w: World, ghost held: set<BaseItem>)
    returns (it: BaseItem?, ghost gone: set<BaseItem>, ghost lost: set<Key>)
    requires store.Valid()
    modifies store`ready, store.table, store.queues, store.slab, store.slab.chunks
    ensures store.Valid() && Injective(store.table.keyOf)
    ensures old(store.slab.chunks) <= store.slab.chunks && fresh(store.slab.chunks - old(store.slab.chunks))
    ensures it != null ==>
              && store.Raw(it, n) && it in store.slab.chunks && it !in store.table.keyOf && it !in old(store.Waiting())
              && store.Fits(n, it.home)
    ensures store.Abs() == State(old(store.Abs()).view - lost, store.casId)
    ensures Made(old(store.BudgetOf(n, w)), it, gone, lost)
    ensures AllSame(old(ShownOf(store.table.keyOf)), ShownOf(store.table.keyOf))
    ensures store.slab.Growth() && store.OneAtMost(it) && Stay(old(store.Waiting()), store.Waiting(), {})
    ensures n > store.slab.geo[store.slab.powerLargest].size ==> it == null && gone == {} && lost == {}
    ensures old(store.HeldAre(held)) ==> store.HeldAre(held)
  {
    hide LruList.Valid, LruList.InfoOf, LruList.Handles, LruList.Abs, GoodTable, LruList.BudgetOf, Made;
    hide LruList.Waiting, LruList.HandedOut, Stay, Slab.Mem, Grew, Borrowed, OnlyHeld, SameShown, AllSame, ShownOf;
    store.KeysInChunks();
    store.KeysAgree();
    store.ClassTable();
    store.BudgetSays(n, w);
    ghost var h := store.Handles();
    it, gone, lost := store.DoItemAlloc(n, w);
    if it != null { MadeFits(old(store.BudgetOf(n, w)), it, gone, lost); }
    KeptByAlloc(store, it, gone, n);
    if OnlyHeld(h, held) { NothingTaken(h, store.Handles(), held); }
    store.FreshIsNew(it, gone);
    store.StayBy(gone + Only(it), {});
    store.KeysInChunks();
    store.KeysAgree();
    store.ShownBy([], {});
  }

  /** What the client sent is written into the item it was given. */
  method FillOffered(
      store: LruList, it: BaseItem, key: Key, value: Blob, exptime: nat, expects: nat, flag: ItemFlag,
      ghost held: set<BaseItem>)
    requires store.Valid() && store.Raw(it, ItemTotal(key, value)) && it !in store.table.keyOf
    requires Injective(store.table.keyOf)
    modifies store`ready, it`key, it`value, it`exptime, it`cas, it`flag
    ensures store.Valid() && store.Offered(it) && OfferOf(it) == Offer(key, value, exptime, expects, flag)
    ensures store.Abs() == old(store.Abs()) && it.refcount == 1
    ensures Stay(old(store.Waiting()), store.Waiting(), {it}) && Injective(store.table.keyOf)
    ensures AllSame(old(ShownOf(store.table.keyOf)), ShownOf(store.table.keyOf))
    ensures old(store.HeldAre(held)) ==> store.HeldAre(held + {it})
  {
    hide SameShown, AllSame, ShownOf, LruList.Valid, ViewOf, LruList.Waiting, Stay;
    store.KeysInChunks();
    store.KeysAgree();
    store.Fill(it, key, value, exptime, expects, flag);
    SameView(store.table.keyOf);
    store.HoldsOne(it, held);
    store.StayBy({it}, {it});
    store.KeysAgree();
    store.ShownBy([], {});
  }

  /**
   * command_five_six_para once the line is parsed: an item of the right size, filled in with what the client sent. The
   * value's bytes arrive later; only their number matters to the allocation. When there is no room, a set still takes
   * the old binding away.
   */
  method OfferItem(
      store: LruList, cmd: Cmd, key: Key, value: Blob, flags: nat, sent: int, expects: nat, started: nat, w: World,
      ghost held: set<BaseItem>)
    returns (it: BaseItem?, ghost gone: set<BaseItem>, ghost lost: set<Key>)
    requires store.Valid()
    modifies store`ready, store.table, store.queues, store.slab, store.slab.chunks
    ensures store.Valid() && Injective(store.table.keyOf)
    ensures old(store.slab.chunks) <= store.slab.chunks && fresh(store.slab.chunks - old(store.slab.chunks))
    ensures it != null ==>
              && store.Offered(it) && it.refcount == 1 && it !in old(store.Waiting())
              && store.Fits(ItemTotal(key, value), it.home)
              && OfferOf(it) ==
                  Offer(key, value, Realtime(ClientExptime(sent), started, w.now), expects, FlagByte(flags))
              && store.Abs() == State(old(store.Abs()).view - lost, store.casId)
    ensures it == null ==>
              var v := old(store.Abs()).view - lost;
              store.Abs() == State(if cmd == Set then Without(v, key) else v, store.casId)
    ensures Made(old(store.BudgetOf(ItemTotal(key, value), w)), it, gone, lost)
    ensures SameShown(old(ShownOf(store.table.keyOf)), ShownOf(store.table.keyOf), key)
    ensures it != null || cmd != Set ==> AllSame(old(ShownOf(store.table.keyOf)), ShownOf(store.table.keyOf))
    ensures store.slab.Growth() && store.OneAtMost(it) && Stay(old(store.Waiting()), store.Waiting(), {})
    ensures ItemTotal(key, value) > store.slab.geo[store.slab.powerLargest].size ==>
              it == null && gone == {} && lost == {}
    ensures old(store.HeldAre(held)) ==> store.HeldAre(held + Only(it))
    ensures store.clock == old(store.clock) && store.casId == old(store.casId)
  {
    hide LruList.Valid, LruList.InfoOf, LruList.Offered, LruList.HeldAre, LruList.Abs, LruList.Raw, LruList.BudgetOf;
    hide ViewOf, Without, GoodTable, ItemTotal, Realtime, ClientExptime, FlagByte, Made, LruList.Waiting;
    hide LruList.HandedOut, LruList.OneAtMost, Stay, Grew, SameShown, AllSame, ShownOf;
    store.ClassTable();
    assert held + Only(null) == held;
    it, gone, lost := AllocForOffer(store, ItemTotal(key, value), w, held);
    ghost var m0, m1, handed := old(store.Waiting()), store.Waiting(), store.HandedOut();
    ghost var s0, s1 := old(ShownOf(store.table.keyOf)), ShownOf(store.table.keyOf);
    if it != null {
      store.Took(it);
      FillOffered(store, it, key, value, Realtime(ClientExptime(sent), started, w.now), expects, FlagByte(flags), held);
      StayOn(m0, m1, store.Waiting(), {}, {it}, {});
      AllSameOn(s0, s1, ShownOf(store.table.keyOf));
      AllSameButOne(s0, s1, ShownOf(store.table.keyOf), key);
      store.HandsOn(handed, it);
    } else {
      store.Took(null);
      label refused:
      RefuseOffer(store, cmd, key, w.now, held);
      StayOn(m0, m1, store.Waiting(), {}, {}, {});
      if cmd != Set { AllSameOn(s0, s1, ShownOf(store.table.keyOf)); }
      AllSameButOne(s0, s1, ShownOf(store.table.keyOf), key);
      store.Took@refused(null);
      store.HandsAdd(handed, null);
    }
  }

  /** The line read_value_stored sends. */
  datatype Line = STORED | NOT_STORED | EXISTS

  function LineOf(cmd: Cmd, outcome: Outcome): Line {
    if outcome == Stored then STORED else if cmd == Cas then EXISTS else NOT_STORED
  }

  /** What a client can tell from the line: only whether its value was stored, not why it was refused. */
  lemma LineTells(cmd: Cmd, a: Outcome, b: Outcome)
    ensures LineOf(cmd, a) == STORED <==> a == Stored
    ensures LineOf(cmd, a) == LineOf(cmd, b) <==> (a == Stored <==> b == Stored)
  {
  }

  /** What was waiting before a store has not been taken out, nor has it become ready. */
  twostate lemma WaitersStay(store: LruList, new held: set<BaseItem>, new it: BaseItem, new gone: set<BaseItem>)
    requires Stay(old(store.Waiting()), store.Waiting(), {it}) && gone <= old(store.table.keyOf).Keys
    requires it in store.ready ==> it in old(store.ready)
    ensures held <= old(store.Waiting()).Keys ==> Awaited(old(store.Handles()), store.Handles(), held, gone)
  {
  }

  /** Every value keeps its line end. */
  lemma RepliedLines(s: State, t: State, cmd: Cmd, o: Offer, now: nat, room: bool, lost: set<Key>, outcome: Outcome)
    requires Replied(s, t, cmd, o, now, room, lost, outcome) && LinesEnd(s.view) && |o.value| >= 2
    ensures LinesEnd(t.view)
  {
  }

  /** store_item: the item is stored or refused, and its client still holds it. */
  method StoreHeld(store: LruList, it: BaseItem, cmd: Cmd, w: World, ghost held: set<BaseItem>)
    returns (told: Outcome, ghost made: BaseItem?, ghost gone: set<BaseItem>, ghost room: bool, ghost lost: set<Key>)
    requires store.Valid() && store.Offered(it) && store.clock <= w.now && Injective(store.table.keyOf)
    requires |it.value| >= 2 && LinesEnd(store.Abs().view)
    requires Locked(w.busy, store.table.bucketOf(it.key))
    modifies store, store.table, store.queues, store.slab, store.slab.chunks
    ensures store.Valid() && Injective(store.table.keyOf) && LinesEnd(store.Abs().view) && store.clock <= w.now
    ensures old(store.slab.chunks) <= store.slab.chunks && fresh(store.slab.chunks - old(store.slab.chunks))
    ensures Replied(old(store.Abs()), store.Abs(), cmd, old(OfferOf(it)), w.now, room, lost, told)
    ensures Outlay(old(store.BudgetOf(store.JoinNeed(it.key, it.value, cmd), w)), Joins(cmd), room, made, gone, lost)
    ensures SameShown(old(ShownOf(store.table.keyOf)), ShownOf(store.table.keyOf), old(it.key))
    ensures store.slab.Growth() && store.OneAtMost(made) && Stay(old(store.Waiting()), store.Waiting(), {it})
    ensures store.Handed(it) && it.refcount > 0 && it.key == old(it.key)
    ensures if it in store.ready then it.handles > 0 else it.flag.Dirty()
    ensures GivenBack(old(store.Handles()), store.Handles(), gone)
    ensures held <= old(store.Waiting()).Keys ==> Awaited(old(store.Handles()), store.Handles(), held, gone)
    ensures OwnLook(old(ShownOf(store.table.keyOf)), ShownOf(store.table.keyOf), old(it.key), 0, told == Stored, w.now)
    ensures it in store.table.keyOf ==> told == Stored
    ensures old(it.refcount) == 1 && told == Stored && it.key in ShownOf(store.table.keyOf) ==>
              ShownOf(store.table.keyOf)[it.key].refcount == if it in store.table.keyOf then 2 else 1
    ensures old(it.refcount) == 1 ==>
              && (it in store.ready <==> !old(it.flag.Dirty()))
              && (it in store.ready ==> it.refcount == 1 + if it.flag.linked then 1 else 0)
  {
    hide LruList.Valid, LruList.InfoOf, LruList.Handles, LruList.StillMine, LruList.Abs, ViewOf;
    hide Replied, LinesEnd, GivenBack, LruList.Offered;
    hide LruList.BudgetOf, LruList.JoinNeed, Outlay, SameShown, ShownOf, LruList.Waiting, LruList.HandedOut;
    hide LruList.OneAtMost, Stay, Locked, Grew, OwnLook, LruList.Heirs;
    store.OfferedFacts(it);
    ghost var s, o := store.Abs(), OfferOf(it);
    ghost var newIt: BaseItem?;
    told, newIt, room, gone, lost := store.DoStoreItem(it, cmd, w);
    made := newIt;
    RepliedLines(s, store.Abs(), cmd, o, w.now, room, lost, told);
    store.MineMeans(it);
    if old(it.refcount) == 1 {
      store.MineAlone(it);
      if it in store.table.keyOf { store.ReadyKey(it); }
      if told == Stored { store.OwnCount(it, newIt); }
    }
    WaitersStay(store, held, it, gone);
  }

  /** The client of an offered item gives its reference back. */
  method ReleaseOffered(store: LruList, it: BaseItem)
    requires store.Valid() && store.Handed(it) && it.refcount > 0 && Injective(store.table.keyOf)
    requires if it in store.ready then it.handles > 0 else it.flag.Dirty()
    modifies store`ready, store.slab`memBase, store.slab`free, store.slab`out
    modifies it`refcount, it`handles, it`leaks, it`exptime, it`clsid, it`flag
    modifies store.slab.chunks`next, store.slab.chunks`prev
    ensures store.Valid() && store.slab.chunks == old(store.slab.chunks) && store.Abs() == old(store.Abs())
    ensures Returned(old(store.Handles()), store.Handles(), it, null) && store.slab.Growth() && store.OneAtMost(null)
    ensures Stay(old(store.Waiting()), store.Waiting(), {it})
    ensures SameShown(old(ShownOf(store.table.keyOf)), ShownOf(store.table.keyOf), old(it.key))
    ensures OwnLess(old(ShownOf(store.table.keyOf)), ShownOf(store.table.keyOf), old(it.key), it in store.table.keyOf)
    ensures it in store.Waiting() <==> it !in old(store.ready) || (!old(it.flag.linked) && old(it.refcount) != 1)
  {
    hide LruList.Valid, LruList.InfoOf, LruList.Handles, LruList.Abs, Returned, LruList.Waiting, LruList.HandedOut;
    hide Stay, SameShown, ShownOf;
    if it in store.ready { store.ReadyHere(it); }
    store.KeysInChunks();
    store.KeysAgree();
    store.Release(it);
    store.KeysAgree();
    store.ReturnedBoth(it, null);
    store.StayBy({it}, {it});
    store.ShownBy(it.key, {it});
    store.slab.MemStays();
    store.WaitsIf(it);
    store.LessShown(it);
  }

  /** store_item and its reply, and the release of the client's own reference. */
  method StoreOffered(store: LruList, it: BaseItem, cmd: Cmd, w: World, ghost held: set<BaseItem>)
    returns (line: Line, ghost outcome: Outcome, ghost made: BaseItem?, ghost gone: set<BaseItem>,
             ghost room: bool, ghost lost: set<Key>)
    requires store.Valid() && store.Offered(it) && store.clock <= w.now && Injective(store.table.keyOf)
    requires |it.value| >= 2 && LinesEnd(store.Abs().view)
    requires Locked(w.busy, store.table.bucketOf(it.key))
    modifies store, store.table, store.queues, store.slab, store.slab.chunks
    ensures store.Valid() && Injective(store.table.keyOf) && LinesEnd(store.Abs().view) && store.clock <= w.now
    ensures old(store.slab.chunks) <= store.slab.chunks && fresh(store.slab.chunks - old(store.slab.chunks))
    ensures Replied(old(store.Abs()), store.Abs(), cmd, old(OfferOf(it)), w.now, room, lost, outcome)
    ensures line == LineOf(cmd, outcome)
    ensures Outlay(old(store.BudgetOf(store.JoinNeed(it.key, it.value, cmd), w)), Joins(cmd), room, made, gone, lost)
    ensures SameShown(old(ShownOf(store.table.keyOf)), ShownOf(store.table.keyOf), old(it.key))
    ensures store.slab.Growth() && store.OneAtMost(made) && Stay(old(store.Waiting()), store.Waiting(), {it})
    ensures old(store.HeldAre(held)) && it in held && held <= old(store.Waiting()).Keys ==> store.HeldAre(held - {it})
    ensures old(it.refcount) == 1 ==>
              && (it in store.Waiting() <==> old(it.flag.Dirty()))
              && OwnAfter(old(ShownOf(store.table.keyOf)), ShownOf(store.table.keyOf), old(it.key), outcome == Stored,
                  w.now)
  {
    hide LruList.Valid, LruList.InfoOf, LruList.Offered, LruList.Handles, LruList.Abs, ViewOf, Replied, LinesEnd;
    hide GivenBack, Returned, OnlyHeld, LruList.BudgetOf, LruList.JoinNeed, Outlay, SameShown, ShownOf, LineOf, Grew;
    hide LruList.Waiting, LruList.HandedOut, LruList.OneAtMost, Stay, Locked, OwnLook, OwnLess, OwnAfter, Awaited;
    ghost var h, m0, s0, key := store.Handles(), store.Waiting(), ShownOf(store.table.keyOf), it.key;
    ghost var newIt: BaseItem?;
    var told: Outcome;
    told, newIt, gone, room, lost := StoreHeld(store, it, cmd, w, held);
    outcome, made := told, newIt;
    store.Took(made);
    ghost var h1, m1, s1, handed := store.Handles(), store.Waiting(), ShownOf(store.table.keyOf), store.HandedOut();
    label stored:
    ReleaseOffered(store, it);
    StayOn(m0, m1, store.Waiting(), {it}, {it}, {it});
    SameShownOn(s0, s1, ShownOf(store.table.keyOf), key);
    if old(it.refcount) == 1 {
      OwnReleased(s0, s1, ShownOf(store.table.keyOf), key, it in store.table.keyOf, told == Stored, w.now);
    }
    store.Took@stored(null);
    store.HandsOn(handed, made);
    if OnlyHeld(h, held) && it in held && held <= m0.Keys { StoredAndReleased(h, h1, store.Handles(), it, gone, held); }
    line := LineOf(cmd, told);
  }

  /**
   * The connection closes while it waits for its value. The program does nothing about the item: its reference stays
   * counted, and nobody holds it any more.
   */
  method Abandon(store: LruList, it: BaseItem, ghost held: set<BaseItem>)
    requires store.Valid() && store.Offered(it) && Injective(store.table.keyOf)
    modifies it`refcount, it`flag, it`exptime, it`handles, it`leaks
    ensures store.Valid() && store.Abs() == old(store.Abs())
    ensures it in store.Waiting() && Stay(old(store.Waiting()), store.Waiting(), {it}) && store.OneAtMost(null)
    ensures ShownOf(store.table.keyOf) == old(ShownOf(store.table.keyOf))
    ensures old(store.HeldAre(held)) ==> store.HeldAre(held - {it})
  {
    hide LruList.Valid, ViewOf, ShownOf, LruList.HandedOut, LruList.Waiting, Stay;
    store.KeysInChunks();
    store.KeysAgree();
    if !it.flag.Dirty() {
      store.ReadyHere(it);
      store.SetMeta(it, it.refcount, it.flag, it.exptime, it.handles - 1, it.leaks + 1);
    }
    SameView(store.table.keyOf);
    store.StayBy({it}, {it});
    store.KeysAgree();
    store.ShownSame();
    store.WaitsIf(it);
  }
}
