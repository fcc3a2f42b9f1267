/** What a session inherits from the runs of the map, and sessions that begin where the program starts. */
module SessionRuns {
  import opened Layout
  import opened CacheSpec
  import opened CacheRuns
  import opened SlabClasses
  import opened Slabs
  import opened HashIndex
  import opened Lru
  import opened Pictures
  import opened ItemStore
  import opened Snapshots
  import opened Commands
  import opened Sessions
  import opened Hashing

  /** A run with its states and events. */
  datatype Trace = Trace(states: seq<State>, events: seq<Event>)

  /** A run that leads from s to t. */
  ghost predicate Leads(r: Trace, s: State, t: State) {
    IsRun(r.states, r.events) && r.states[0] == s && r.states[|r.events|] == t
  }

  /** Nothing but lazy expiry, evictions and deletes. */
  predicate OnlyReclaims(events: seq<Event>) {
    forall m {:trigger events[m]} :: 0 <= m < |events| ==> events[m].Reclaim?
  }

  lemma One(s: State, e: Event) returns (r: Trace)
    requires Sound(s)
    ensures Leads(r, s, Apply(s, e)) && r.events == [e]
  {
    r := Trace([s, Apply(s, e)], [e]);
  }

  lemma Stay(s: State) returns (r: Trace)
    requires Sound(s)
    ensures Leads(r, s, s) && r.events == []
  {
    r := Trace([s], []);
  }

  function Then(a: Trace, b: Trace): Trace
    requires |b.states| > 0
  {
    Trace(a.states + b.states[1..], a.events + b.events)
  }

  lemma Chained(a: Trace, b: Trace, s: State, t: State, u: State)
    requires Leads(a, s, t) && Leads(b, t, u)
    ensures Leads(Then(a, b), s, u)
    ensures forall m :: 0 <= m < |a.states| ==> Then(a, b).states[m] == a.states[m]
  {
    var c, n := Then(a, b), |a.events|;
    forall m | 0 <= m < |c.events| ensures c.states[m + 1] == Apply(c.states[m], c.events[m]) {
      if m < n {
        assert c.events[m] == a.events[m];
      } else {
        assert c.events[m] == b.events[m - n];
        assert c.states[m] == b.states[m - n];
      }
    }
  }

  lemma LeadsSound(r: Trace, s: State, t: State)
    requires Leads(r, s, t)
    ensures Sound(s) && Sound(t)
  {
    RunSound(r.states, r.events, 0, |r.events|);
  }

  /** Keys leave the map one by one. */
  lemma {:induction false} Reclaims(s: State, lost: set<Key>) returns (r: Trace)
    requires Sound(s)
    ensures Leads(r, s, State(s.view - lost, s.lastCas)) && OnlyReclaims(r.events)
    decreases |lost|
  {
    if lost == {} {
      assert s.view - lost == s.view;
      r := Stay(s);
    } else {
      var k :| k in lost;
      var first := One(s, Reclaim(k));
      var s1 := Apply(s, Reclaim(k));
      LeadsSound(first, s, s1);
      var rest := Reclaims(s1, lost - {k});
      assert s1.view - (lost - {k}) == s.view - lost;
      Chained(first, rest, s, s1, State(s.view - lost, s.lastCas));
      r := Then(first, rest);
    }
  }

  lemma Expiry(s: State, k: Key, now: nat) returns (r: Trace)
    requires Sound(s)
    ensures Leads(r, s, Live(s, k, now)) && OnlyReclaims(r.events)
  {
    if k in s.view && Expired(s.view[k], now) {
      r := One(s, Reclaim(k));
    } else {
      r := Stay(s);
    }
  }

  /** A store is lazy expiry of its key, evictions, and one atomic decision. */
  lemma StoreIsRun(
      s: State, t: State, cmd: Cmd, o: Offer, now: nat, room: bool, lost: set<Key>, outcome: Outcome) returns (r: Trace)
    requires Sound(s) && Replied(s, t, cmd, o, now, room, lost, outcome)
    ensures Leads(r, s, t) && r.events != [] && OnlyReclaims(r.events[..|r.events| - 1])
    ensures r.events[|r.events| - 1] == Resolve(cmd, o, room)
  {
    var live := Live(s, o.key, now);
    var a := Expiry(s, o.key, now);
    LeadsSound(a, s, live);
    var less := State(live.view - lost, live.lastCas);
    var b := Reclaims(live, lost);
    LeadsSound(b, live, less);
    var t2 := Apply(less, Resolve(cmd, o, room));
    var c := One(less, Resolve(cmd, o, room));
    RepliedBy(s, live, t2, cmd, o, now, room, lost, outcome);
    Chained(b, c, live, less, t2);
    Chained(a, Then(b, c), s, live, t2);
    r := Then(a, Then(b, c));
  }

  /**
   * The events of the map that one event of a session stands for: when a value arrives, evictions and then the store
   * that the connection owes; otherwise only lazy expiry, evictions and deletes.
   */
  ghost predicate Comes(events: seq<Event>, p: Point, r: Request) {
    if r.input.Data? && r.conn in p.owed then
      && events != [] && OnlyReclaims(events[..|events| - 1])
      && var last := events[|events| - 1];
         && last.Resolve? && last.cmd == p.owed[r.conn].cmd && last.offer == p.owed[r.conn].offer
         && |last.offer.value| >= 2
    else OnlyReclaims(events)
  }

  /** Every event of a session is a run of the map. */
  lemma HandledIsRun(u: Setup, p: Point, q: Point, r: Request, a: Answer, w: World, started: nat) returns (run: Trace)
    requires Sound(p.s) && PointOk(u, p) && Handled(u, p, q, r, a, w, started)
    ensures Leads(run, p.s, q.s) && Comes(run.events, p, r)
  {
    hide Replied, Ensues, FactsAt, Costs, SnapOk, OwnAfter;
    if Ignores(p, r) || r.input.HangUp? {
      run := Stay(p.s);
    } else if r.input.Data? {
      var o := p.owed[r.conn];
      var lost, room, outcome :| Settles(p, q, r, a, FactsFor(u, p, r, w), o, lost, room, outcome);
      run := StoreIsRun(p.s, q.s, o.cmd, o.offer, r.now, room, lost, outcome);
    } else {
      match r.input.verb
      case StoreVerb(cmd, key, _, _, _, _) =>
        var lost :| Offers(p, q, r, r.input.verb, a, FactsFor(u, p, r, w), started, lost);
        var s1 := State(p.s.view - lost, p.s.lastCas);
        run := Reclaims(p.s, lost);
        if a.NoMemory? && cmd == Set {
          LeadsSound(run, p.s, s1);
          var last := One(s1, Reclaim(key));
          Chained(run, last, p.s, s1, q.s);
          run := Then(run, last);
        }
      case DeleteVerb(key) =>
        run := One(p.s, Reclaim(key));
      case GetVerb(key) =>
        run := Expiry(p.s, key, r.now);
    }
  }

  /** Where each event of a session lies in a run: marks[i] is where the map is as it was before event i. */
  ghost predicate Marked(run: Trace, marks: seq<nat>, points: seq<Point>, requests: seq<Request>) {
    && IsRun(run.states, run.events) && |marks| == |points| > 0 && |requests| >= |points| - 1
    && marks[0] == 0 && marks[|marks| - 1] == |run.events|
    && (forall i, j :: 0 <= i <= j < |marks| ==> marks[i] <= marks[j])
    && (forall i {:trigger marks[i]} :: 0 <= i < |marks| ==> run.states[marks[i]] == points[i].s)
    && forall i {:trigger requests[i]} :: 0 <= i < |marks| - 1 ==>
         Comes(run.events[marks[i]..marks[i + 1]], points[i], requests[i])
  }

  lemma RunSize(r: Trace)
    requires IsRun(r.states, r.events)
    ensures |r.states| == |r.events| + 1
  {
  }

  /** The events of each request, when one more has been handled. */
  lemma MarkEvents(
      before: Trace, some: seq<nat>, last: Trace, points: seq<Point>, requests: seq<Request>, q: Point, r: Request,
      i: nat)
    requires Marked(before, some, points, requests) && |requests| == |points| - 1 && |last.states| > 0
    requires Comes(last.events, points[|points| - 1], r) && i < |points|
    ensures var run := Then(before, last);
            var marks := some + [|run.events|];
            && marks[i] <= marks[i + 1] <= |run.events|
            && Comes(run.events[marks[i]..marks[i + 1]], (points + [q])[i], (requests + [r])[i])
  {
    hide Comes, IsRun;
    var run := Then(before, last);
    var marks := some + [|run.events|];
    if i < |points| - 1 {
      assert some[i] <= some[i + 1] <= some[|some| - 1];
      assert run.events[marks[i]..marks[i + 1]] == before.events[some[i]..some[i + 1]];
      assert requests[i] == (requests + [r])[i];
    } else {
      assert run.events[marks[i]..marks[i + 1]] == last.events;
    }
  }

  lemma MarkOn(
      before: Trace, some: seq<nat>, last: Trace, points: seq<Point>, requests: seq<Request>, q: Point, r: Request)
    requires Marked(before, some, points, requests) && |requests| == |points| - 1
    requires Leads(last, points[|points| - 1].s, q.s) && Comes(last.events, points[|points| - 1], r)
    ensures |last.states| > 0
    ensures Marked(
              Then(before, last), some + [|Then(before, last).events|], points + [q], requests + [r])
  {
    hide Comes, IsRun;
    RunSize(before);
    RunSize(last);
    var run, marks := Then(before, last), some + [|Then(before, last).events|];
    Chained(before, last, before.states[0], points[|points| - 1].s, q.s);
    forall i, j | 0 <= i <= j < |marks| ensures marks[i] <= marks[j] {
      if i < |some| { assert some[i] <= some[|some| - 1]; }
    }
    forall i {:trigger marks[i]} | 0 <= i < |marks| ensures run.states[marks[i]] == (points + [q])[i].s {
      if i < |some| { assert before.states[some[i]] == points[i].s && some[i] <= some[|some| - 1]; }
    }
    forall i {:trigger (requests + [r])[i]} | 0 <= i < |marks| - 1
      ensures Comes(run.events[marks[i]..marks[i + 1]], (points + [q])[i], (requests + [r])[i])
    {
      MarkEvents(before, some, last, points, requests, q, r, i);
    }
  }

  lemma HandledAt(
      u: Setup, points: seq<Point>, requests: seq<Request>, answers: seq<Answer>, world: nat -> World, started: nat,
      n: nat)
    requires Serves(u, points, requests, answers, world, started) && n < |answers|
    ensures |points| == |answers| + 1 <= |requests| + 1 && PointOk(u, points[n]) && PointOk(u, points[n + 1])
    ensures Handled(u, points[n], points[n + 1], requests[n], answers[n], WorldAt(world, requests, n), started)
  {
    hide Handled, PointOk;
    assert points[n] == points[n] && points[n + 1] == points[n + 1];
  }

  /** Neither a touch nor a delete by id, and if it offers a value, one with its line end. */
  predicate Plain(e: Event) { !e.Touch? && !e.Unlink? && OffersTerminated(e) }

  lemma ComesPlain(events: seq<Event>, p: Point, r: Request)
    requires Comes(events, p, r)
    ensures forall m {:trigger events[m]} :: 0 <= m < |events| ==> Plain(events[m])
  {
    forall m | 0 <= m < |events| - 1 ensures Plain(events[m]) {
      assert events[..|events| - 1][m] == events[m];
    }
  }

  lemma {:induction false} AllPlain(run: Trace, marks: seq<nat>, points: seq<Point>, requests: seq<Request>, j: nat)
    requires Marked(run, marks, points, requests) && j < |marks|
    ensures forall m {:trigger run.events[m]} :: 0 <= m < marks[j] ==> Plain(run.events[m])
  {
    hide Comes, Sound, Apply, Plain;
    if 0 < j {
      AllPlain(run, marks, points, requests, j - 1);
      var part := run.events[marks[j - 1]..marks[j]];
      assert requests[j - 1] == requests[j - 1];
      ComesPlain(part, points[j - 1], requests[j - 1]);
      forall m {:trigger run.events[m]} | marks[j - 1] <= m < marks[j] ensures Plain(run.events[m]) {
        assert run.events[m] == part[m - marks[j - 1]];
      }
    }
  }

  lemma PlainRun(run: Trace, marks: seq<nat>, points: seq<Point>, requests: seq<Request>)
    requires Marked(run, marks, points, requests)
    ensures forall m {:trigger run.events[m]} :: 0 <= m < |run.events| ==> Plain(run.events[m])
  {
    hide Comes, Sound, Apply, Plain;
    AllPlain(run, marks, points, requests, |marks| - 1);
  }

  lemma MarkNone(run: Trace, points: seq<Point>, requests: seq<Request>)
    requires |points| == 1 && requests == [] && run.events == [] && Leads(run, points[0].s, points[0].s)
    ensures Marked(run, [0], points, requests)
  {
    hide Sound;
  }

  lemma MarkedSound(run: Trace, marks: seq<nat>, points: seq<Point>, requests: seq<Request>)
    requires Marked(run, marks, points, requests)
    ensures |points| > 0 && Sound(points[|points| - 1].s)
  {
    hide Sound, Comes, Apply;
    RunSound(run.states, run.events, 0, |run.events|);
    assert run.states[marks[|marks| - 1]] == points[|points| - 1].s;
  }

  /** A session without its last event. */
  lemma Shorter(
      u: Setup, points: seq<Point>, requests: seq<Request>, answers: seq<Answer>, world: nat -> World, started: nat)
    requires Serves(u, points, requests, answers, world, started) && answers != []
    ensures var n := |answers| - 1; Serves(u, points[..n + 1], requests, answers[..n], world, started)
  {
    hide Handled, PointOk;
    var n := |answers| - 1;
    forall i {:trigger answers[..n][i]} | 0 <= i < n
      ensures Handled(
                u, points[..n + 1][i], points[..n + 1][i + 1], requests[i], answers[..n][i],
                WorldAt(world, requests, i), started)
    {
      HandledAt(u, points, requests, answers, world, started, i);
    }
    assert forall i {:trigger points[..n + 1][i]} :: 0 <= i < n + 1 ==> points[..n + 1][i] == points[i];
  }

  /**
   * Every session follows a run of the map: the states between events lie on it, in order, and each event of the run
   * comes from the request between its marks. No entry is touched, every store is one that a client asked for, and its
   * value had its line end.
   */
  lemma {:induction false} SessionIsRun(
      u: Setup, points: seq<Point>, requests: seq<Request>, answers: seq<Answer>, world: nat -> World, started: nat)
    returns (run: Trace, marks: seq<nat>)
    requires Serves(u, points, requests, answers, world, started) && Sound(points[0].s)
    ensures Marked(run, marks, points, requests[..|answers|])
    ensures forall m {:trigger run.events[m]} :: 0 <= m < |run.events| ==> Plain(run.events[m])
    decreases |answers|
  {
    hide Handled, Sound, Comes, Leads, Marked, Done, Ignores, PointOk, Plain;
    if answers == [] {
      run := Stay(points[0].s);
      marks := [0];
      MarkNone(run, points, requests[..0]);
    } else {
      hide Serves;
      var n := |answers| - 1;
      HandledAt(u, points, requests, answers, world, started, n);
      Shorter(u, points, requests, answers, world, started);
      var before: Trace, some: seq<nat>;
      before, some := SessionIsRun(u, points[..n + 1], requests, answers[..n], world, started);
      MarkedSound(before, some, points[..n + 1], requests[..n]);
      var last := HandledIsRun(
        u, points[n], points[n + 1], requests[n], answers[n], WorldAt(world, requests, n), started);
      MarkOn(before, some, last, points[..n + 1], requests[..n], points[n + 1], requests[n]);
      assert points[..n + 1] + [points[n + 1]] == points && requests[..n] + [requests[n]] == requests[..n + 1];
      run := Then(before, last);
      marks := some + [|run.events|];
    }
    PlainRun(run, marks, points, requests[..|answers|]);
  }

  lemma OwedStep(u: Setup, p: Point, q: Point, r: Request, a: Answer, w: World, started: nat, conn: nat)
    requires Handled(u, p, q, r, a, w, started) && conn in p.owed && r.conn != conn
    ensures conn in q.owed && q.owed[conn] == p.owed[conn]
  {
    hide Ensues, FactsAt, Replied, Costs;
  }

  /** A connection that waits keeps waiting for the same until its value arrives, whatever other connections do. */
  lemma {:induction false} StillOwed(
      u: Setup, points: seq<Point>, requests: seq<Request>, answers: seq<Answer>, world: nat -> World, started: nat,
      m: nat, j: nat, conn: nat)
    requires Serves(u, points, requests, answers, world, started) && m <= j <= |answers| && conn in points[m].owed
    requires forall n :: m <= n < j ==> requests[n].conn != conn
    ensures conn in points[j].owed && points[j].owed[conn] == points[m].owed[conn]
    decreases j - m
  {
    hide Serves, Ensues, Settles, PointOk, Reads, FactsAt;
    if m < j {
      HandledAt(u, points, requests, answers, world, started, j - 1);
      StillOwed(u, points, requests, answers, world, started, m, j - 1, conn);
      OwedStep(
        u, points[j - 1], points[j], requests[j - 1], answers[j - 1], WorldAt(world, requests, j - 1), started, conn);
    }
  }

  /** A get of k that returned e. */
  ghost predicate Gets(r: Request, a: Answer, k: Key, e: Entry) {
    r.input.Command? && r.input.verb == GetVerb(k) && a == Value(Some(ReadingOf(e)))
  }

  lemma GotIt(
      u: Setup, points: seq<Point>, requests: seq<Request>, answers: seq<Answer>, world: nat -> World, started: nat,
      i: nat, k: Key, e: Entry)
    requires Serves(u, points, requests, answers, world, started) && i < |answers|
    requires Gets(requests[i], answers[i], k, e)
    ensures k in points[i].s.view && points[i].s.view[k] == e && Seen(points[i].s, k, requests[i].now)
  {
    hide Serves, Ensues, FactsAt, PointOk, Live;
    HandledAt(u, points, requests, answers, world, started, i);
  }

  lemma CasReply(s: State, t: State, o: Offer, now: nat, room: bool, lost: set<Key>, outcome: Outcome)
    requires Replied(s, t, Cas, o, now, room, lost, outcome)
    ensures outcome == Stored <==> Seen(s, o.key, now) && s.view[o.key].cas == o.expects
  {
    ReplyTable(s, Cas, o, now, room);
  }

  /** What the arrival of a cas says. */
  lemma CasSettles(u: Setup, p: Point, q: Point, r: Request, a: Answer, w: World, started: nat, o: Offer)
    requires Handled(u, p, q, r, a, w, started) && r.input.Data? && r.conn in p.owed && p.owed[r.conn] == Owed(Cas, o)
    ensures a == Told(STORED) <==> Seen(p.s, o.key, r.now) && p.s.view[o.key].cas == o.expects
  {
    hide Replied, Costs, Ensues, FactsAt;
    var lost, room, outcome :| Settles(p, q, r, a, FactsFor(u, p, r, w), Owed(Cas, o), lost, room, outcome);
    CasReply(p.s, q.s, o, r.now, room, lost, outcome);
  }

  /** A key bound under the same id at two points of a session is bound to the same entry. */
  lemma SameIdSameEntry(
      u: Setup, points: seq<Point>, requests: seq<Request>, answers: seq<Answer>, world: nat -> World, started: nat,
      i: nat, j: nat, k: Key)
    requires Serves(u, points, requests, answers, world, started) && Sound(points[0].s) && i <= j <= |answers|
    requires k in points[i].s.view && k in points[j].s.view && points[i].s.view[k].cas == points[j].s.view[k].cas
    ensures points[j].s.view[k] == points[i].s.view[k]
  {
    hide PointOk, Handled, Comes, Sound, Apply, Disturbs;
    var run, marks := SessionIsRun(u, points, requests, answers, world, started);
    CasIdNeverReturns(run.states, run.events, k, marks[i], marks[j]);
    UndisturbedKeeps(run.states, run.events, k, marks[i], marks[j]);
    ExptimeKept(run.states, run.events, k, marks[i], marks[j]);
  }

  /**
   * No lost update, seen by a client. A get at event i returned entry e; a cas that sends e's id was accepted at m, and
   * its value arrived at j, other connections being served all the while. The answer is STORED exactly when the key is
   * still bound to the entry that was read and seen: not replaced, deleted, evicted or expired.
   */
  lemma CasStoredIffEntryStands(
      u: Setup, points: seq<Point>, requests: seq<Request>, answers: seq<Answer>, world: nat -> World, started: nat,
      i: nat, m: nat, j: nat, e: Entry)
    requires Serves(u, points, requests, answers, world, started) && Sound(points[0].s) && i < m < j < |answers|
    requires requests[m].input.Command? && requests[m].input.verb.StoreVerb? && requests[m].input.verb.cmd == Cas
    requires Gets(requests[i], answers[i], requests[m].input.verb.key, e)
    requires requests[m].input.verb.expects == e.cas && answers[m] == Accepted
    requires requests[j].conn == requests[m].conn && requests[j].input == Data
    requires forall n :: m < n < j ==> requests[n].conn != requests[m].conn
    ensures var k := requests[m].input.verb.key;
            && (answers[j] == Told(STORED) <==>
                 Seen(points[j].s, k, requests[j].now) && points[j].s.view[k].cas == e.cas)
            && (answers[j] == Told(STORED) ==> points[j].s.view[k].value == e.value)
  {
    hide Serves, Replied, Costs, Ensues, FactsAt, PointOk, Marked, Sound;
    HandledAt(u, points, requests, answers, world, started, m);
    var k := requests[m].input.verb.key;
    GotIt(u, points, requests, answers, world, started, i, k, e);
    var conn, v := requests[m].conn, requests[m].input.verb;
    var o := OfferBy(v, started, requests[m].now);
    assert conn in points[m + 1].owed && points[m + 1].owed[conn] == Owed(Cas, o);
    StillOwed(u, points, requests, answers, world, started, m + 1, j, conn);
    HandledAt(u, points, requests, answers, world, started, j);
    CasSettles(u, points[j], points[j + 1], requests[j], answers[j], WorldAt(world, requests, j), started, o);
    if answers[j] == Told(STORED) {
      SameIdSameEntry(u, points, requests, answers, world, started, i, j, k);
    }
  }

  /**
   * Expiry, seen by a client: what a get returned is the same whenever a later get returns its id again, and once the
   * clock has reached its nonzero expiry no get ever does.
   */
  lemma ExpiredIsNeverServed(
      u: Setup, points: seq<Point>, requests: seq<Request>, answers: seq<Answer>, world: nat -> World, started: nat,
      i: nat, j: nat, k: Key, e: Entry, e2: Entry)
    requires Serves(u, points, requests, answers, world, started) && Sound(points[0].s) && i < j < |answers|
    requires Gets(requests[i], answers[i], k, e) && Gets(requests[j], answers[j], k, e2) && e2.cas == e.cas
    ensures e2 == e && (e.exptime == 0 || requests[j].now < e.exptime)
  {
    hide Serves, Sound;
    GotIt(u, points, requests, answers, world, started, i, k, e);
    GotIt(u, points, requests, answers, world, started, j, k, e2);
    SameIdSameEntry(u, points, requests, answers, world, started, i, j, k);
  }

  // ---------- append and prepend ----------

  /** The value of an append or prepend of k arrives, and the answer is STORED. */
  ghost predicate Extends(p: Point, r: Request, a: Answer, k: Key) {
    && r.input.Data? && r.conn in p.owed && Joins(p.owed[r.conn].cmd) && p.owed[r.conn].offer.key == k
    && a == Told(STORED)
  }

  /** What one event puts in front of the payload of k, and what it puts behind. */
  ghost function InFront(p: Point, r: Request, a: Answer, k: Key): Blob {
    if Extends(p, r, a, k) && p.owed[r.conn].cmd == Prepend then Trim(p.owed[r.conn].offer.value) else []
  }

  ghost function Behind(p: Point, r: Request, a: Answer, k: Key): Blob {
    if Extends(p, r, a, k) && p.owed[r.conn].cmd == Append then Trim(p.owed[r.conn].offer.value) else []
  }

  /** The payloads of the STORED prepends of k among the events from i to j, newest first. */
  ghost function Prepended(
      points: seq<Point>, requests: seq<Request>, answers: seq<Answer>, k: Key, i: nat, j: nat): Blob
    requires i <= j <= |answers| <= |requests| && |answers| < |points|
    decreases j
  {
    if i == j then []
    else InFront(points[j - 1], requests[j - 1], answers[j - 1], k) + Prepended(points, requests, answers, k, i, j - 1)
  }

  /** The payloads of the STORED appends of k among the events from i to j, oldest first. */
  ghost function Appended(
      points: seq<Point>, requests: seq<Request>, answers: seq<Answer>, k: Key, i: nat, j: nat): Blob
    requires i <= j <= |answers| <= |requests| && |answers| < |points|
    decreases j
  {
    if i == j then []
    else Appended(points, requests, answers, k, i, j - 1) + Behind(points[j - 1], requests[j - 1], answers[j - 1], k)
  }

  lemma JoinedValue(s: State, t: State, cmd: Cmd, o: Offer, now: nat, room: bool, lost: set<Key>, outcome: Outcome)
    requires Sound(s) && Replied(s, t, cmd, o, now, room, lost, outcome) && outcome == Stored && Joins(cmd)
    requires o.key in s.view && o.key in t.view
    ensures t.view[o.key].value == Join(cmd, s.view[o.key].value, o.value)
  {
    StoredEffect(s, cmd, o, now, room);
  }

  lemma JoinSettles(u: Setup, p: Point, q: Point, r: Request, a: Answer, w: World, started: nat, k: Key)
    requires Sound(p.s) && Handled(u, p, q, r, a, w, started) && k in p.s.view && k in q.s.view
    requires Extends(p, r, a, k)
    ensures q.s.view[k].value == Join(p.owed[r.conn].cmd, p.s.view[k].value, p.owed[r.conn].offer.value)
  {
    hide Ensues, FactsAt, Costs, Sound, Replied, Join;
    var o := p.owed[r.conn];
    var lost, room, outcome :| Settles(p, q, r, a, FactsFor(u, p, r, w), o, lost, room, outcome);
    JoinedValue(p.s, q.s, o.cmd, o.offer, r.now, room, lost, outcome);
  }

  lemma ValueKept(u: Setup, p: Point, q: Point, r: Request, a: Answer, w: World, started: nat, k: Key)
    requires Sound(p.s) && PointOk(u, p) && Handled(u, p, q, r, a, w, started) && k in p.s.view && k in q.s.view
    requires q.s.view[k].cas == p.s.view[k].cas
    ensures q.s.view[k].value == p.s.view[k].value
  {
    hide Handled, Comes, Sound, Apply;
    var run := HandledIsRun(u, p, q, r, a, w, started);
    CasIdNeverReturns(run.states, run.events, k, 0, |run.events|);
  }

  lemma PayloadEvent(u: Setup, p: Point, q: Point, r: Request, a: Answer, w: World, started: nat, k: Key)
    requires Sound(p.s) && PointOk(u, p) && Handled(u, p, q, r, a, w, started) && k in p.s.view && k in q.s.view
    requires q.s.view[k].cas == p.s.view[k].cas || Extends(p, r, a, k)
    ensures Trim(q.s.view[k].value) == InFront(p, r, a, k) + Trim(p.s.view[k].value) + Behind(p, r, a, k)
  {
    hide Handled, SnapOk, Sound;
    if Extends(p, r, a, k) {
      var o := p.owed[r.conn];
      JoinSettles(u, p, q, r, a, w, started, k);
      JoinTrims(o.cmd, p.s.view[k].value, o.offer.value);
    } else {
      ValueKept(u, p, q, r, a, w, started, k);
    }
  }

  /** Between events the map is sound, and the last id never goes back. */
  ghost predicate AllSound(points: seq<Point>) {
    && (forall i {:trigger points[i]} :: 0 <= i < |points| ==> Sound(points[i].s))
    && (forall i, j :: 0 <= i <= j < |points| ==> points[i].s.lastCas <= points[j].s.lastCas)
  }

  lemma SessionSound(
      u: Setup, points: seq<Point>, requests: seq<Request>, answers: seq<Answer>, world: nat -> World, started: nat)
    requires Serves(u, points, requests, answers, world, started) && Sound(points[0].s)
    ensures AllSound(points)
  {
    hide Sound, Comes, Handled, PointOk;
    var run, marks := SessionIsRun(u, points, requests, answers, world, started);
    forall i, j | 0 <= i <= j < |points|
      ensures Sound(points[i].s) && Sound(points[j].s) && points[i].s.lastCas <= points[j].s.lastCas
    {
      RunSound(run.states, run.events, marks[i], marks[j]);
    }
    forall i | 0 <= i < |points| ensures Sound(points[i].s) { RunSound(run.states, run.events, marks[i], marks[i]); }
  }

  /**
   * Appends and prepends, seen by clients. As long as k stays bound and nothing but a STORED append or prepend gives it
   * a new id, its payload is all prepended payloads, then the payload it started with, then all appended payloads,
   * whatever other keys see and however many attempts are refused.
   */
  lemma {:induction false} JoinsAddUp(
      u: Setup, points: seq<Point>, requests: seq<Request>, answers: seq<Answer>, world: nat -> World, started: nat,
      i: nat, j: nat, k: Key)
    requires Serves(u, points, requests, answers, world, started) && Sound(points[0].s) && i <= j <= |answers|
    requires forall n :: i <= n <= j ==> k in points[n].s.view
    requires forall n {:trigger answers[n]} :: i <= n < j ==>
               points[n + 1].s.view[k].cas == points[n].s.view[k].cas || Extends(points[n], requests[n], answers[n], k)
    ensures Trim(points[j].s.view[k].value)
         == Prepended(points, requests, answers, k, i, j) + Trim(points[i].s.view[k].value)
            + Appended(points, requests, answers, k, i, j)
    decreases j
  {
    hide Handled, PointOk, Sound, Extends, InFront, Behind;
    if i < j {
      JoinsAddUp(u, points, requests, answers, world, started, i, j - 1, k);
      HandledAt(u, points, requests, answers, world, started, j - 1);
      SessionSound(u, points, requests, answers, world, started);
      var p, q, r, a := points[j - 1], points[j], requests[j - 1], answers[j - 1];
      assert answers[j - 1] == a;
      PayloadEvent(u, p, q, r, a, WorldAt(world, requests, j - 1), started, k);
      Regroup(InFront(p, r, a, k), Prepended(points, requests, answers, k, i, j - 1), Trim(points[i].s.view[k].value),
              Appended(points, requests, answers, k, i, j - 1), Behind(p, r, a, k));
    }
  }

  // ---------- chunks ----------

  /** The event allocates from this class, if it allocates at all. */
  ghost predicate Asks(u: Setup, p: Point, r: Request, c: nat) {
    !Ignores(p, r) && !r.input.HangUp? && ClassFor(u.geo, c, NeedOf(p, r))
  }

  /** How many of the events from i to j do. */
  ghost function Asked(u: Setup, points: seq<Point>, requests: seq<Request>, c: nat, i: nat, j: nat): nat
    requires i <= j <= |requests| && j < |points|
    decreases j
  {
    if i == j then 0
    else Asked(u, points, requests, c, i, j - 1) + if Asks(u, points[j - 1], requests[j - 1], c) then 1 else 0
  }

  lemma FreeStep(u: Setup, p: Point, q: Point, r: Request, a: Answer, w: World, started: nat, c: nat)
    requires Handled(u, p, q, r, a, w, started) && c < |p.snap.free|
    ensures |q.snap.free| == |p.snap.free|
    ensures p.snap.free[c] <= q.snap.free[c] + if Asks(u, p, r, c) then 1 else 0
  {
    hide Done, Grew, SameShown, ClassFor;
  }

  /** Each event takes at most one chunk off the free list of a class, and only an event that asks for that class. */
  lemma {:induction false} ChunksLast(
      u: Setup, points: seq<Point>, requests: seq<Request>, answers: seq<Answer>, world: nat -> World, started: nat,
      c: nat, i: nat, j: nat)
    requires Serves(u, points, requests, answers, world, started) && i <= j <= |answers| && c < |points[i].snap.free|
    ensures c < |points[j].snap.free|
    ensures points[i].snap.free[c] <= points[j].snap.free[c] + Asked(u, points, requests, c, i, j)
    decreases j
  {
    hide Serves, Handled, PointOk, Asks;
    if i < j {
      HandledAt(u, points, requests, answers, world, started, i);
      HandledAt(u, points, requests, answers, world, started, j - 1);
      ChunksLast(u, points, requests, answers, world, started, c, i, j - 1);
      FreeStep(
        u, points[j - 1], points[j], requests[j - 1], answers[j - 1], WorldAt(world, requests, j - 1), started, c);
    }
  }

  /**
   * As long as the class of an item had more free chunks than events have asked for it since, a store is not refused,
   * whatever the world does.
   */
  lemma NotRefusedWhileChunksLast(
      u: Setup, points: seq<Point>, requests: seq<Request>, answers: seq<Answer>, world: nat -> World, started: nat,
      c: nat, i: nat, j: nat)
    requires Serves(u, points, requests, answers, world, started) && i <= j < |answers| && c < |points[i].snap.free|
    requires requests[j].input.Command? && requests[j].input.verb.StoreVerb? && requests[j].conn !in points[j].owed
    requires ClassFor(u.geo, c, ItemTotal(requests[j].input.verb.key, requests[j].input.verb.value))
    requires points[i].snap.free[c] > Asked(u, points, requests, c, i, j)
    ensures answers[j] == Accepted
  {
    hide Serves, Ensues, Costs;
    ChunksLast(u, points, requests, answers, world, started, c, i, j);
    HandledAt(u, points, requests, answers, world, started, j);
    assert ServesAt(u, points[j].snap, c, WorldAt(world, requests, j));
    assert CanMakeAt(
        u, points[j].snap, NeedOf(points[j], requests[j]), WorldAt(world, requests, j));
  }

  // ---------- evictions ----------

  /**
   * Nothing entitles this event to take the entry of k out. It is on another key. If nobody has read the entry since it
   * was stored, it has not expired and nothing need be evicted for want of a chunk; if somebody has, it was linked or
   * bumped less than three hours ago.
   */
  ghost predicate Spares(u: Setup, p: Point, r: Request, w: World, k: Key)
    requires k in p.snap.shown
  {
    Ignores(p, r) || r.input.HangUp?
    || (&& KeyOf(p, r) != k
        && var x := p.snap.shown[k];
           if x.refcount == 1 then
             (x.exptime == 0 || r.now <= x.exptime) && (w.evictToFree ==> FactsFor(u, p, r, w).canMake)
           else r.now <= Add32(x.realtime, TAIL_REPAIR_TIME))
  }

  lemma OthersStay(
      s: State, t: State, cmd: Cmd, o: Offer, now: nat, room: bool, lost: set<Key>, outcome: Outcome, k: Key)
    requires Replied(s, t, cmd, o, now, room, lost, outcome) && k in s.view && k != o.key && k !in lost
    ensures k in t.view && t.view[k] == s.view[k]
  {
  }

  lemma NotDue(u: Setup, p: Point, r: Request, w: World, k: Key)
    requires PointOk(u, p) && k in p.snap.shown && w.now == r.now
    requires !Ignores(p, r) && !r.input.HangUp? && Spares(u, p, r, w, k)
    ensures k !in FactsFor(u, p, r, w).repairs && k !in FactsFor(u, p, r, w).victims
  {
    hide CanMakeAt, InReachAt, NeedOf;
  }

  lemma EventSpares(
      u: Setup, p: Point, q: Point, r: Request, a: Answer, w: World, started: nat, k: Key)
    requires !Ignores(p, r) && !r.input.HangUp? && Done(u, p, q, r, a, w, started) && KeyOf(p, r) != k
    requires k in p.s.view && k !in FactsFor(u, p, r, w).repairs && k !in FactsFor(u, p, r, w).victims
    ensures k in q.s.view && q.s.view[k] == p.s.view[k]
  {
    hide FactsAt, Replied, LineOf, Realtime;
    if r.input.Data? {
      var o := p.owed[r.conn];
      var lost, room, outcome :| Settles(p, q, r, a, FactsFor(u, p, r, w), o, lost, room, outcome);
      OthersStay(p.s, q.s, o.cmd, o.offer, r.now, room, lost, outcome, k);
    } else if r.input.verb.StoreVerb? {
      var lost :| Offers(p, q, r, r.input.verb, a, FactsFor(u, p, r, w), started, lost);
    }
  }

  lemma SparedStep(u: Setup, p: Point, q: Point, r: Request, a: Answer, w: World, started: nat, k: Key)
    requires PointOk(u, p) && PointOk(u, q) && Handled(u, p, q, r, a, w, started) && w.now == r.now
    requires k in p.snap.shown && Spares(u, p, r, w, k)
    ensures k in p.s.view && k in q.s.view && q.s.view[k] == p.s.view[k]
    ensures k in q.snap.shown && q.snap.shown[k] == p.snap.shown[k]
  {
    hide Done, FactsFor, Grew;
    if !Ignores(p, r) && !r.input.HangUp? {
      NotDue(u, p, r, w, k);
      EventSpares(u, p, q, r, a, w, started, k);
    }
  }

  /**
   * No entry is lost without cause: it stays as it is, and looks as it did, through any events that are not entitled to
   * take it out.
   */
  lemma {:induction false} StaysWhileSpared(
      u: Setup, points: seq<Point>, requests: seq<Request>, answers: seq<Answer>, world: nat -> World, started: nat,
      i: nat, j: nat, k: Key)
    requires Serves(u, points, requests, answers, world, started) && i <= j <= |answers|
    requires k in points[i].snap.shown
    requires forall n {:trigger points[n]} :: i <= n < j && k in points[n].snap.shown ==>
               Spares(u, points[n], requests[n], WorldAt(world, requests, n), k)
    ensures k in points[i].s.view && k in points[j].s.view && points[j].s.view[k] == points[i].s.view[k]
    ensures k in points[j].snap.shown && points[j].snap.shown[k] == points[i].snap.shown[k]
    decreases j
  {
    hide Handled, Spares;
    assert PointOk(u, points[i]);
    if i < j {
      StaysWhileSpared(u, points, requests, answers, world, started, i, j - 1, k);
      HandledAt(u, points, requests, answers, world, started, j - 1);
      SparedStep(
        u, points[j - 1], points[j], requests[j - 1], answers[j - 1], WorldAt(world, requests, j - 1), started, k);
    }
  }

  lemma EmptyIsSound()
    ensures Sound(State(map[], 0))
  {
  }

  /** Past the limit a class with one page keeps one page. */
  twostate lemma PagesStay(slab: Slab)
    requires slab.Growth()
    ensures |slab.pages| == |old(slab.pages)|
    ensures slab.memLimit != 0 && old(slab.memMalloced) > slab.memLimit ==>
              forall c {:trigger slab.pages[c]} :: 0 <= c < |slab.pages| && old(slab.pages)[c] == 1 ==>
                  slab.pages[c] == 1
  {
  }

  /** One page for each class but the last. */
  ghost function FirstPages(n: nat): (pages: seq<nat>)
    ensures |pages| == n && forall c {:trigger pages[c]} :: 0 <= c < n ==> pages[c] == if 1 <= c < n - 1 then 1 else 0
  {
    seq(n, c => if 1 <= c < n - 1 then 1 else 0)
  }

  lemma {:induction false} PageIsPart(geo: seq<Geometry>, pages: seq<nat>, c: nat)
    requires |geo| == |pages| && c < |geo| && pages[c] == 1
    ensures PageBytes(geo[c]) <= Malloced(geo, pages)
    decreases c
  {
    if 0 < c { PageIsPart(geo[1..], pages[1..], c - 1); }
  }

  lemma PagesSum(store: LruList)
    requires store.Valid()
    ensures |store.slab.geo| == |store.slab.pages| == store.slab.powerLargest + 1
    ensures store.slab.memMalloced == Malloced(store.slab.geo, store.slab.pages)
  {
    hide HashTable.Valid, LruQueues.Valid, ItemsOk, Cross, TableOk;
  }

  /** The value of a store of k arrives, and the answer is STORED. */
  ghost predicate Stores(p: Point, r: Request, a: Answer, k: Key) {
    r.input.Data? && r.conn in p.owed && p.owed[r.conn].offer.key == k && a == Told(STORED)
  }

  lemma StoredLook(u: Setup, p: Point, q: Point, r: Request, a: Answer, w: World, started: nat, k: Key)
    requires Handled(u, p, q, r, a, w, started) && Stores(p, r, a, k) && k in q.snap.shown
    ensures q.snap.shown[k].refcount == 1 && q.snap.shown[k].realtime == r.now
  {
    hide Ensues, FactsAt, Replied, Costs;
  }

  /** An event on another key, not after this time, that need not evict for want of a chunk. */
  ghost predicate Harmless(u: Setup, p: Point, r: Request, w: World, k: Key, exptime: nat) {
    Ignores(p, r) || r.input.HangUp?
    || (&& KeyOf(p, r) != k && (exptime == 0 || r.now <= exptime)
        && (w.evictToFree ==> FactsFor(u, p, r, w).canMake))
  }

  lemma {:induction false} UnreadStays(
      u: Setup, points: seq<Point>, requests: seq<Request>, answers: seq<Answer>, world: nat -> World, started: nat,
      i: nat, j: nat, k: Key, x: Shown)
    requires Serves(u, points, requests, answers, world, started) && i <= j <= |answers|
    requires k in points[i].snap.shown && points[i].snap.shown[k] == x && x.refcount == 1
    requires forall n {:trigger points[n]} :: i <= n < j ==>
               Harmless(u, points[n], requests[n], WorldAt(world, requests, n), k, x.exptime)
    ensures k in points[j].snap.shown && points[j].snap.shown[k] == x
    ensures k in points[i].s.view && k in points[j].s.view && points[j].s.view[k] == points[i].s.view[k]
    decreases j
  {
    hide Handled, FactsFor;
    assert PointOk(u, points[i]);
    if i < j {
      UnreadStays(u, points, requests, answers, world, started, i, j - 1, k, x);
      HandledAt(u, points, requests, answers, world, started, j - 1);
      assert Harmless(u, points[j - 1], requests[j - 1], WorldAt(world, requests, j - 1), k, x.exptime);
      SparedStep(
        u, points[j - 1], points[j], requests[j - 1], answers[j - 1], WorldAt(world, requests, j - 1), started, k);
    }
  }

  /**
   * STORED is a promise: an entry whose store was answered STORED, and that could be linked, is there, unchanged, after
   * any events of which none stores, deletes or reads its key, comes after its expiry, or has to evict for want of a
   * chunk.
   */
  lemma StoredStays(
      u: Setup, points: seq<Point>, requests: seq<Request>, answers: seq<Answer>, world: nat -> World, started: nat,
      i: nat, j: nat, k: Key)
    requires Serves(u, points, requests, answers, world, started) && i < j <= |answers|
    requires Stores(points[i], requests[i], answers[i], k) && k in points[i + 1].s.view
    requires forall n {:trigger points[n]} :: i < n < j ==>
               Harmless(
                 u, points[n], requests[n], WorldAt(world, requests, n), k, points[i + 1].s.view[k].exptime)
    ensures k in points[j].s.view && points[j].s.view[k] == points[i + 1].s.view[k]
  {
    hide Handled, Harmless;
    assert PointOk(u, points[i + 1]);
    HandledAt(u, points, requests, answers, world, started, i);
    StoredLook(u, points[i], points[i + 1], requests[i], answers[i], WorldAt(world, requests, i), started, k);
    UnreadStays(u, points, requests, answers, world, started, i + 1, j, k, points[i + 1].snap.shown[k]);
  }

  /** Every class but the last has one page. */
  ghost predicate OnePageEachStays(slab: Slab)
    reads slab
  {
    forall c {:trigger slab.pages[c]} :: 1 <= c < slab.powerLargest && c < |slab.pages| ==> slab.pages[c] == 1
  }

  /** The first pages together, or any one of them, exceed a nonzero limit. */
  ghost predicate PagesExceed(geo: seq<Geometry>, limit: nat) {
    && limit != 0
    && (Malloced(geo, FirstPages(|geo|)) > limit || exists c :: 1 <= c < |geo| - 1 && PageBytes(geo[c]) > limit)
  }

  twostate lemma WasSum(store: LruList)
    requires old(store.Valid())
    ensures |store.slab.geo| == |old(store.slab.pages)| == store.slab.powerLargest + 1
    ensures old(store.slab.memMalloced) == Malloced(store.slab.geo, old(store.slab.pages))
  {
    hide HashTable.Valid, LruQueues.Valid, ItemsOk, Cross, TableOk;
  }

  twostate lemma FirstPagesStay(store: LruList)
    requires old(store.Valid()) && store.slab.Growth() && old(store.slab.pages) == FirstPages(|store.slab.geo|)
    requires PagesExceed(store.slab.geo, store.slab.memLimit)
    ensures OnePageEachStays(store.slab)
  {
    hide LruList.Valid, Malloced;
    var geo, first := store.slab.geo, FirstPages(|store.slab.geo|);
    PagesStay(store.slab);
    WasSum(store);
    forall c | 1 <= c < |geo| - 1 ensures PageBytes(geo[c]) <= Malloced(geo, first) {
      PageIsPart(geo, first, c);
    }
  }

  /**
   * The program from its start: the store is made, one page for each class, and one worker serves its connections. The
   * map is sound at every point and ids only rise. When the first pages together, or any one of them, exceed the limit,
   * no class but the last ever gets a second page.
   */
  method RunFromStart(
      limit: nat, chunkSize: nat, itemSizeMax: nat, power: nat, reallocOk: nat -> bool, mallocOk: nat -> bool,
      requests: seq<Request>, world: nat -> World, started: nat)
    returns (store: LruList, ok: bool, answers: seq<Answer>, pending: map<nat, Pending>, ghost points: seq<Point>)
    requires HEADER + chunkSize < UINT32 && itemSizeMax < UINT32 - 16
    requires forall i {:trigger requests[i]} :: 0 <= i < |requests| ==> Parsed(requests[i])
    requires forall i, j :: 0 <= i < j < |requests| ==> requests[i].now <= requests[j].now
    ensures (forall c :: reallocOk(c) && mallocOk(c)) && itemSizeMax < INT32 ==> ok
    ensures ok ==> |answers| == |requests| && Serves(SetupOf(store), points, requests, answers, world, started)
    ensures ok ==>
              && Sessions.Idle(store, pending) && points[0].s == State(map[], 0) && points[0].owed == map[]
              && points[0].snap.shown == map[] && points[0].snap.mem.pages == FirstPages(|store.slab.geo|)
              && points[|requests|] == Here(store, pending)
    ensures ok ==> AllSound(points)
    ensures |store.slab.geo| == store.slab.powerLargest + 1 && store.slab.memLimit == limit
    ensures ok && PagesExceed(store.slab.geo, limit) ==> OnePageEachStays(store.slab)
  {
    hide LruList.Valid, Sessions.Idle, Serves, AllSound, Sound, HashOf, Masked, PagesExceed, OnePageEachStays, Grew;
    store, ok := NewStore(limit, chunkSize, itemSizeMax, power, reallocOk, mallocOk);
    answers, pending, points := [], map[], [];
    PagesSum(store);
    if ok {
      assert store.slab.pages == FirstPages(|store.slab.geo|);
      NewIsIdle(store);
      label made:
      answers, pending, points := Serve(store, requests, world, started, map[]);
      if PagesExceed(store.slab.geo, limit) { FirstPagesStay@made(store); }
      EmptyIsSound();
      SessionSound(SetupOf(store), points, requests, answers, world, started);
    }
  }
}
