/** What the store means, with no lists, chunks or locks: a map from key to entry and the last CAS id handed out. */
module CacheSpec {
  import opened Layout

  datatype Entry = Entry(value: Blob, exptime: nat, cas: nat, rest: nat)
  type View = map<Key, Entry>
  datatype State = State(view: View, lastCas: nat)

  datatype Cmd = Add | Set | Replace | Append | Prepend | Cas
  datatype Outcome = NotStored | Stored | Exists | NotFound

  /** An item as the connection fills it in before the store: `expects` is the CAS id the client sent. */
  datatype Offer = Offer(key: Key, value: Blob, exptime: nat, expects: nat, flag: ItemFlag)

  predicate Expired(e: Entry, now: nat) { e.exptime != 0 && e.exptime <= now }

  function Lookup(view: View, k: Key): Option<Entry> {
    if k in view then Some(view[k]) else None
  }

  function Without(view: View, k: Key): (r: View)
    ensures r.Keys == view.Keys - {k}
    ensures forall k2 :: k2 in r ==> r[k2] == view[k2]
  {
    map k2 | k2 in view && k2 != k :: view[k2]
  }

  /** Every value holds at least its line end. */
  predicate LinesEnd(v: View) { forall k :: k in v ==> |v[k].value| >= 2 }

  /** The last two bytes of a value are CR LF. */
  function Trim(v: Blob): Blob { if |v| < 2 then [] else v[..|v| - 2] }

  /** The blob that append (new after old) and prepend (new before old) build. */
  function Join(cmd: Cmd, prior: Blob, add: Blob): Blob {
    if cmd == Append then Trim(prior) + add else Trim(add) + prior
  }

  /** What do_store_item decides once it has looked the key up: refuse, or bind the key. */
  datatype Verdict = Refuse(outcome: Outcome) | Put(value: Blob, exptime: nat, flag: ItemFlag)

  function Decide(cmd: Cmd, prior: Option<Entry>, o: Offer, room: bool): Verdict {
    if cmd == Add && prior.Some? then Refuse(NotStored)
    else if prior.None? && (cmd == Replace || cmd == Append || cmd == Prepend) then Refuse(NotStored)
    else if cmd == Cas then
      if prior.None? then Refuse(NotFound)
      else if o.expects == prior.value.cas then Put(o.value, o.exptime, o.flag)
      else Refuse(Exists)
    else if cmd == Append || cmd == Prepend then
      if o.expects != prior.value.cas then Refuse(Exists)
      else if !room then Refuse(NotStored)
      else Put(Join(cmd, prior.value.value, o.value), prior.value.exptime, CLEAN)
    else Put(o.value, o.exptime, o.flag)
  }

  function OutcomeOf(v: Verdict): Outcome { if v.Refuse? then v.outcome else Stored }

  /** Linking takes a fresh id; a dirty flag byte makes the link fail after the old item is already gone. */
  function Bind(s: State, k: Key, value: Blob, exptime: nat, flag: ItemFlag): State {
    if flag.Dirty() then State(Without(s.view, k), s.lastCas)
    else State(s.view[k := Entry(value, exptime, s.lastCas + 1, flag.rest)], s.lastCas + 1)
  }

  /**
   * The atomic events of the store.
   * Reclaim: lazy expiry, eviction or tail repair takes a key out. Resolve: a store whose key has been looked up.
   * Unlink: a delete that holds the item with this id. Touch: the expiry of a bound key is overwritten.
   */
  datatype Event =
    | Nop
    | Reclaim(key: Key)
    | Resolve(cmd: Cmd, offer: Offer, room: bool)
    | Unlink(key: Key, cas: nat)
    | Touch(key: Key, exptime: nat)

  function Apply(s: State, e: Event): State {
    match e
    case Nop => s
    case Reclaim(k) => s.(view := Without(s.view, k))
    case Resolve(cmd, o, room) =>
      (match Decide(cmd, Lookup(s.view, o.key), o, room)
       case Refuse(_) => s
       case Put(v, x, f) => Bind(s, o.key, v, x, f))
    case Unlink(k, id) =>
      if k in s.view && s.view[k].cas == id then s.(view := Without(s.view, k)) else s
    case Touch(k, x) =>
      if k in s.view then s.(view := s.view[k := s.view[k].(exptime := x)]) else s
  }

  /** do_item_get takes an expired key out before anything looks at it. */
  function Live(s: State, k: Key, now: nat): State {
    if k in s.view && Expired(s.view[k], now) then Apply(s, Reclaim(k)) else s
  }

  /** The whole of do_store_item at one point in time. */
  function Store(s: State, cmd: Cmd, o: Offer, now: nat, room: bool): (State, Outcome) {
    var live := Live(s, o.key, now);
    (Apply(live, Resolve(cmd, o, room)), OutcomeOf(Decide(cmd, Lookup(live.view, o.key), o, room)))
  }

  /** Every id in the view has been handed out, no two keys share one, and none is zero. */
  predicate Sound(s: State) {
    && (forall k :: k in s.view ==> 1 <= s.view[k].cas <= s.lastCas)
    && (forall k1, k2 :: k1 in s.view && k2 in s.view && s.view[k1].cas == s.view[k2].cas ==> k1 == k2)
  }

  // ---------- the reply table ----------

  predicate Joins(cmd: Cmd) { cmd == Append || cmd == Prepend }

  /** Which of the four replies a store gives, for every command, key and clock. */
  lemma ReplyTable(s: State, cmd: Cmd, o: Offer, now: nat, room: bool)
    ensures var seen := o.key in s.view && !Expired(s.view[o.key], now);
            var joins := Joins(cmd);
            var match_ := seen && s.view[o.key].cas == o.expects;
            var r := Store(s, cmd, o, now, room).1;
            && (r == NotFound <==> cmd == Cas && !seen)
            && (r == Exists <==> seen && !match_ && (cmd == Cas || joins))
            && (r == NotStored <==>
                 (cmd == Add && seen) || ((cmd == Replace || joins) && !seen) || (joins && match_ && !room))
            && (r == Stored <==>
                 cmd == Set || (cmd == Add && !seen) || (cmd == Replace && seen) ||
                 (cmd == Cas && match_) || (joins && match_ && room))
  {
  }

  /** Binding a key: the ids stay sound, no other key moves, and the new id is above every id in the map. */
  lemma BindEffect(s: State, k: Key, value: Blob, exptime: nat, flag: ItemFlag)
    requires Sound(s)
    ensures var t := Bind(s, k, value, exptime, flag);
            && Sound(t)
            && Without(t.view, k) == Without(s.view, k)
            && (k in t.view <==> !flag.Dirty())
            && (k in t.view ==>
                 t.view[k] == Entry(value, exptime, s.lastCas + 1, flag.rest) && t.lastCas == s.lastCas + 1)
  {
    var t := Bind(s, k, value, exptime, flag);
    assert Without(t.view, k) == Without(s.view, k);
  }

  /** A key that is bound and whose expiry has not passed. */
  predicate Seen(s: State, k: Key, now: nat) { k in s.view && !Expired(s.view[k], now) }

  /** A reply other than STORED changes nothing but lazy expiry of the key itself. */
  lemma RefusedStoreEffect(s: State, cmd: Cmd, o: Offer, now: nat, room: bool)
    requires Sound(s) && Store(s, cmd, o, now, room).1 != Stored
    ensures var t := Store(s, cmd, o, now, room).0;
            && Sound(t)
            && t.lastCas == s.lastCas
            && t.view == if Seen(s, o.key, now) then s.view else Without(s.view, o.key)
  {
    if o.key !in s.view { assert Without(s.view, o.key) == s.view; }
  }

  /** Lazy expiry touches no other key and leaves the key bound exactly when it can be seen. */
  lemma LiveEffect(s: State, k: Key, now: nat)
    requires Sound(s)
    ensures var t := Live(s, k, now);
            && Sound(t) && t.lastCas == s.lastCas
            && Without(t.view, k) == Without(s.view, k)
            && Lookup(t.view, k) == if Seen(s, k, now) then Some(s.view[k]) else None
  {
    assert Without(Live(s, k, now).view, k) == Without(s.view, k);
  }

  /**
   * STORED binds the key to the right blob under a fresh id above all others, exactly when the flag byte lets
   * do_item_link through. No other key moves.
   */
  lemma StoredEffect(s: State, cmd: Cmd, o: Offer, now: nat, room: bool)
    requires Sound(s) && Store(s, cmd, o, now, room).1 == Stored
    ensures Joins(cmd) ==> Seen(s, o.key, now)
    ensures var t := Store(s, cmd, o, now, room).0;
            && Sound(t)
            && Without(t.view, o.key) == Without(s.view, o.key)
            && (o.key in t.view <==> Joins(cmd) || !o.flag.Dirty())
            && (o.key in t.view ==>
                 && t.view[o.key].cas == t.lastCas == s.lastCas + 1
                 && t.view[o.key].value == (if Joins(cmd) then Join(cmd, s.view[o.key].value, o.value) else o.value)
                 && t.view[o.key].exptime == (if Joins(cmd) then s.view[o.key].exptime else o.exptime))
  {
    LiveEffect(s, o.key, now);
    var live := Live(s, o.key, now);
    var v := Decide(cmd, Lookup(live.view, o.key), o, room);
    assert v.Put?;
    BindEffect(live, o.key, v.value, v.exptime, v.flag);
    assert Store(s, cmd, o, now, room).0 == Bind(live, o.key, v.value, v.exptime, v.flag);
  }

  /**
   * "STORED means a later get finds the key" is false: with client flags 1 the link is refused and the reply is
   * still STORED.
   */
  lemma StoredButAbsent()
    ensures var o := Offer([107], [13, 10], 0, 0, FlagByte(1));
            var (t, r) := Store(State(map[], 0), Set, o, 1, true);
            r == Stored && o.key !in t.view
  {
  }

  /** It holds exactly when bits 0 and 2 of the flags are clear, or the command builds its own item. */
  lemma StoredIsBoundIff(s: State, cmd: Cmd, o: Offer, now: nat, room: bool, flags: nat)
    ensures var r := Store(s, cmd, o.(flag := FlagByte(flags)), now, room);
            r.1 == Stored ==> (o.key in r.0.view <==> Joins(cmd) || (flags % 2 == 0 && flags / 4 % 2 == 0))
  {
  }

  /** An append or prepend that sends no CAS id never stores: ids start at 1 and the comparison is unconditional. */
  lemma PlainAppendNeverStores(s: State, cmd: Cmd, o: Offer, now: nat, room: bool)
    requires Sound(s) && o.expects == 0 && (cmd == Append || cmd == Prepend)
    ensures Store(s, cmd, o, now, room).1 != Stored
    ensures Without(Store(s, cmd, o, now, room).0.view, o.key) == Without(s.view, o.key)
  {
    RefusedStoreEffect(s, cmd, o, now, room);
    assert Without(Without(s.view, o.key), o.key) == Without(s.view, o.key);
  }

  /** Every event keeps the ids sound and never takes an id back. */
  lemma ApplySound(s: State, e: Event)
    requires Sound(s)
    ensures Sound(Apply(s, e)) && s.lastCas <= Apply(s, e).lastCas
  {
  }

  /** The expected payload after joining: the line ends come off and the payloads follow each other. */
  lemma JoinTrims(cmd: Cmd, prior: Blob, add: Blob)
    requires |prior| >= 2 && |add| >= 2
    ensures |Join(cmd, prior, add)| == |prior| + |add| - 2
    ensures Trim(Join(cmd, prior, add)) == if cmd == Append then Trim(prior) + Trim(add) else Trim(add) + Trim(prior)
  {
    assert Trim(Join(cmd, prior, add)) == if cmd == Append then Trim(prior) + Trim(add) else Trim(add) + Trim(prior);
  }
}
