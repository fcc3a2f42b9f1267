/** What holds over every run of the store: CAS ids, expiry and joined payloads. */
module CacheRuns {
  import opened Layout
  import opened CacheSpec

  /** states[m + 1] is states[m] after events[m]. */
  ghost predicate IsRun(states: seq<State>, events: seq<Event>) {
    && |states| == |events| + 1
    && Sound(states[0])
    && forall m {:trigger events[m]} :: 0 <= m < |events| ==> states[m + 1] == Apply(states[m], events[m])
  }

  /** The event takes effect on k: a store of k that replies STORED, a delete that unlinks k, or a reclaim of k. */
  predicate Disturbs(s: State, e: Event, k: Key) {
    match e
    case Nop => false
    case Reclaim(k2) => k2 == k && k in s.view
    case Resolve(cmd, o, room) => o.key == k && Decide(cmd, Lookup(s.view, k), o, room).Put?
    case Unlink(k2, id) => k2 == k && k in s.view && s.view[k].cas == id
    case Touch(_, _) => false
  }

  ghost predicate Undisturbed(states: seq<State>, events: seq<Event>, k: Key, i: nat, j: nat)
    requires IsRun(states, events) && j <= |events|
  {
    forall m :: i <= m < j ==> !Disturbs(states[m], events[m], k)
  }

  lemma {:induction false} RunSound(states: seq<State>, events: seq<Event>, i: nat, j: nat)
    requires IsRun(states, events) && i <= j <= |events|
    ensures Sound(states[i]) && Sound(states[j]) && states[i].lastCas <= states[j].lastCas
    decreases j
  {
    if i < j {
      RunSound(states, events, i, j - 1);
      ApplySound(states[j - 1], events[j - 1]);
    } else if 0 < j {
      RunSound(states, events, j - 1, j - 1);
      ApplySound(states[j - 1], events[j - 1]);
    }
  }

  /** No binding of k carries an id as old as c. */
  predicate Past(s: State, k: Key, c: nat) {
    c <= s.lastCas && (k in s.view ==> c < s.view[k].cas)
  }

  lemma PastStep(s: State, e: Event, k: Key, c: nat)
    requires Past(s, k, c)
    ensures Past(Apply(s, e), k, c)
  {
  }

  /** An event that takes effect on k puts every earlier id in the past. */
  lemma DisturbedIsPast(s: State, e: Event, k: Key, c: nat)
    requires Disturbs(s, e, k) && c <= s.lastCas
    ensures Past(Apply(s, e), k, c)
  {
  }

  lemma {:induction false} PastForever(states: seq<State>, events: seq<Event>, k: Key, c: nat, i: nat, j: nat)
    requires IsRun(states, events) && i <= j <= |events| && Past(states[i], k, c)
    ensures Past(states[j], k, c)
    decreases j
  {
    if i < j {
      PastForever(states, events, k, c, i, j - 1);
      PastStep(states[j - 1], events[j - 1], k, c);
    }
  }

  lemma {:induction false} UndisturbedKeeps(states: seq<State>, events: seq<Event>, k: Key, i: nat, j: nat)
    requires IsRun(states, events) && i <= j <= |events| && k in states[i].view
    requires Undisturbed(states, events, k, i, j)
    ensures k in states[j].view
    ensures states[j].view[k].(exptime := 0) == states[i].view[k].(exptime := 0)
    decreases j
  {
    if i < j {
      UndisturbedKeeps(states, events, k, i, j - 1);
      assert !Disturbs(states[j - 1], events[j - 1], k);
    }
  }

  /**
   * No ABA: a binding read at i is still there at j, id and all, exactly when nothing took effect on the key in
   * between. The id alone therefore tells a client whether the value it read is the value it replaces.
   */
  lemma CasIdNeverReturns(states: seq<State>, events: seq<Event>, k: Key, i: nat, j: nat)
    requires IsRun(states, events) && i <= j <= |events| && k in states[i].view
    ensures (k in states[j].view && states[j].view[k].cas == states[i].view[k].cas)
       <==> Undisturbed(states, events, k, i, j)
    ensures Undisturbed(states, events, k, i, j) ==> states[j].view[k].value == states[i].view[k].value
  {
    if Undisturbed(states, events, k, i, j) {
      UndisturbedKeeps(states, events, k, i, j);
    } else {
      var m :| i <= m < j && Disturbs(states[m], events[m], k);
      var c := states[i].view[k].cas;
      RunSound(states, events, i, m);
      DisturbedIsPast(states[m], events[m], k, c);
      PastForever(states, events, k, c, m + 1, j);
    }
  }

  /**
   * No lost update: a cas store that sends the id read at i, and finds the key unexpired at j, is STORED exactly when
   * no store, delete, eviction or expiry of that key has taken effect since; otherwise it changes no binding.
   */
  lemma CasStoresIffUndisturbed(
      states: seq<State>, events: seq<Event>, i: nat, j: nat, o: Offer, now: nat, room: bool)
    requires IsRun(states, events) && i <= j <= |events|
    requires o.key in states[i].view && o.expects == states[i].view[o.key].cas
    ensures Store(states[j], Cas, o, now, room).1 == Stored
       <==> Undisturbed(states, events, o.key, i, j) && Seen(states[j], o.key, now)
    ensures Store(states[j], Cas, o, now, room).1 != Stored ==>
              Store(states[j], Cas, o, now, room).0 == Live(states[j], o.key, now)
  {
    CasIdNeverReturns(states, events, o.key, i, j);
  }

  /** Two cas stores that race with the same id: once one is STORED, the other can never be. */
  lemma RacingCasStoresOnce(
      states: seq<State>, events: seq<Event>, i: nat, m: nat, j: nat, first: Offer, second: Offer, room: bool, now: nat)
    requires IsRun(states, events) && i <= m < j <= |events|
    requires first.key == second.key && first.key in states[i].view
    requires first.expects == second.expects == states[i].view[first.key].cas
    requires events[m] == Resolve(Cas, first, room)
    requires Decide(Cas, Lookup(states[m].view, first.key), first, room).Put?
    ensures Store(states[j], Cas, second, now, room).1 != Stored
  {
    assert Disturbs(states[m], events[m], first.key);
    CasStoresIffUndisturbed(states, events, i, j, second, now, room);
  }

  // ---------- expiry ----------

  ghost predicate Untouched(events: seq<Event>, k: Key, i: nat, j: nat)
    requires j <= |events|
  {
    forall m :: i <= m < j && events[m].Touch? ==> events[m].key != k
  }

  lemma ExptimeStep(s: State, e: Event, k: Key)
    requires k in s.view && !Disturbs(s, e, k) && (e.Touch? ==> e.key != k)
    ensures k in Apply(s, e).view && Apply(s, e).view[k].exptime == s.view[k].exptime
  {
  }

  lemma {:induction false} ExptimeKept(states: seq<State>, events: seq<Event>, k: Key, i: nat, j: nat)
    requires IsRun(states, events) && i <= j <= |events| && k in states[i].view
    requires Undisturbed(states, events, k, i, j) && Untouched(events, k, i, j)
    ensures k in states[j].view && states[j].view[k].exptime == states[i].view[k].exptime
    decreases j
  {
    hide Apply, Disturbs, Sound;
    if i < j {
      ExptimeKept(states, events, k, i, j - 1);
      assert !Disturbs(states[j - 1], events[j - 1], k);
      ExptimeStep(states[j - 1], events[j - 1], k);
    }
  }

  /**
   * Expiry over a run with a clock that never goes back: once the clock has reached the nonzero expiry of the item
   * bound at i, no lookup at any later point sees that item again, as long as nobody touches it.
   */
  lemma ExpiredStaysUnseen(
      states: seq<State>, events: seq<Event>, clock: seq<nat>, k: Key, i: nat, from: nat, j: nat)
    requires IsRun(states, events) && i <= from <= j <= |events|
    requires |clock| == |states| && (forall a, b :: 0 <= a <= b < |clock| ==> clock[a] <= clock[b])
    requires k in states[i].view && states[i].view[k].exptime != 0
    requires states[i].view[k].exptime <= clock[from]
    requires Untouched(events, k, i, j)
    ensures !(Seen(states[j], k, clock[j]) && states[j].view[k].cas == states[i].view[k].cas)
    ensures Undisturbed(states, events, k, i, j) ==> k !in Live(states[j], k, clock[j]).view
  {
    CasIdNeverReturns(states, events, k, i, j);
    if Undisturbed(states, events, k, i, j) {
      ExptimeKept(states, events, k, i, j);
    }
  }

  // ---------- append and prepend ----------

  /** Every offered blob ends in its two-byte line end. */
  predicate OffersTerminated(e: Event) { e.Resolve? ==> |e.offer.value| >= 2 }

  /** The event stores k by joining. */
  predicate JoinsKey(s: State, e: Event, k: Key) {
    e.Resolve? && Joins(e.cmd) && Disturbs(s, e, k)
  }

  /** What one event puts in front of the payload of k, and what it puts behind. */
  function FrontStep(s: State, e: Event, k: Key): Blob {
    if JoinsKey(s, e, k) && e.cmd == Prepend then Trim(e.offer.value) else []
  }

  function BackStep(s: State, e: Event, k: Key): Blob {
    if JoinsKey(s, e, k) && e.cmd == Append then Trim(e.offer.value) else []
  }

  lemma PayloadStep(s: State, e: Event, k: Key)
    requires k in s.view && |s.view[k].value| >= 2 && OffersTerminated(e)
    requires Disturbs(s, e, k) ==> JoinsKey(s, e, k)
    ensures var t := Apply(s, e);
            && k in t.view && |t.view[k].value| >= 2
            && Trim(t.view[k].value) == FrontStep(s, e, k) + Trim(s.view[k].value) + BackStep(s, e, k)
  {
    if JoinsKey(s, e, k) {
      JoinTrims(e.cmd, s.view[k].value, e.offer.value);
    }
  }

  /** The payloads that successful prepends of k put in front, newest first. */
  ghost function Front(states: seq<State>, events: seq<Event>, k: Key, i: nat, j: nat): Blob
    requires IsRun(states, events) && i <= j <= |events|
    decreases j
  {
    if i == j then []
    else
      FrontStep(states[j - 1], events[j - 1], k) + Front(states, events, k, i, j - 1)
  }

  /** The payloads that successful appends of k put behind, oldest first. */
  ghost function Back(states: seq<State>, events: seq<Event>, k: Key, i: nat, j: nat): Blob
    requires IsRun(states, events) && i <= j <= |events|
    decreases j
  {
    if i == j then []
    else
      Back(states, events, k, i, j - 1) + BackStep(states[j - 1], events[j - 1], k)
  }

  lemma Regroup(a: Blob, b: Blob, c: Blob, d: Blob, e: Blob)
    ensures a + (b + c + d) + e == (a + b) + c + (d + e)
  {
  }

  /**
   * As long as only appends and prepends take effect on k, its payload is all prepended payloads, then the payload
   * it started with, then all appended payloads, whatever happens to other keys and however many attempts fail.
   */
  lemma {:induction false} JoinedPayload(states: seq<State>, events: seq<Event>, k: Key, i: nat, j: nat)
    requires IsRun(states, events) && i <= j <= |events| && k in states[i].view
    requires |states[i].view[k].value| >= 2
    requires forall m :: i <= m < j ==> OffersTerminated(events[m])
    requires forall m :: i <= m < j && Disturbs(states[m], events[m], k) ==> JoinsKey(states[m], events[m], k)
    ensures k in states[j].view && |states[j].view[k].value| >= 2
    ensures Trim(states[j].view[k].value)
         == Front(states, events, k, i, j) + Trim(states[i].view[k].value) + Back(states, events, k, i, j)
    decreases j
  {
    if i < j {
      JoinedPayload(states, events, k, i, j - 1);
      var s, e := states[j - 1], events[j - 1];
      assert OffersTerminated(e);
      PayloadStep(s, e, k);
      Regroup(FrontStep(s, e, k), Front(states, events, k, i, j - 1), Trim(states[i].view[k].value),
              Back(states, events, k, i, j - 1), BackStep(s, e, k));
    }
  }
}
