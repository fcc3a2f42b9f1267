/** Handing an accepted socket to the worker: a locked queue, and a pipe that carries one byte for each push. */
module HandOff {
  import opened Layout

  function After<T>(q: seq<T>, op: Op<T>): seq<T> {
    match op
    case In(x) => q + [x]
    case Out => if q == [] then q else q[1..]
  }

  /** The queue behind the mutex; every method is one critical section. */
  class ThreadsafeQueue<T(==)> {
    var dataQueue: seq<T>

    constructor ()
      ensures dataQueue == []
    {
      dataQueue := [];
    }

    method Push(x: T)
      modifies this
      ensures dataQueue == After(old(dataQueue), In(x))
    {
      dataQueue := dataQueue + [x];
    }

    /** One look of wait_and_pop under the mutex: an item, or None as long as the thread goes on waiting. */
    method WaitAndPop() returns (x: Option<T>)
      modifies this
      ensures x.None? <==> old(dataQueue) == []
      ensures x.None? ==> dataQueue == old(dataQueue)
      ensures x.Some? ==> x.value == old(dataQueue)[0] && dataQueue == After(old(dataQueue), Out)
    {
      if dataQueue == [] { return None; }
      x := Some(dataQueue[0]);
      dataQueue := dataQueue[1..];
    }

    method TryPop() returns (x: Option<T>)
      modifies this
      ensures x.None? <==> old(dataQueue) == []
      ensures x.Some? ==> x.value == old(dataQueue)[0]
      ensures dataQueue == After(old(dataQueue), Out)
    {
      if dataQueue == [] { return None; }
      x := Some(dataQueue[0]);
      dataQueue := dataQueue[1..];
    }
  }

  datatype Op<T> = In(x: T) | Out

  function Inputs<T>(ops: seq<Op<T>>): seq<T>
    decreases |ops|
  {
    if ops == [] then [] else
      var op := ops[|ops| - 1];
      Inputs(ops[..|ops| - 1]) + (if op.In? then [op.x] else [])
  }

  /** The queue and what has come out of it, after any sequence of operations on an empty queue. */
  function Flow<T>(ops: seq<Op<T>>): (seq<T>, seq<T>)
    decreases |ops|
  {
    if ops == [] then ([], []) else
      var (q, out) := Flow(ops[..|ops| - 1]);
      var op := ops[|ops| - 1];
      (After(q, op), if op.Out? && q != [] then out + [q[0]] else out)
  }

  /** First in, first out, each exactly once: what came out, followed by what is still inside, is what went in. */
  lemma {:induction false} QueueIsFifo<T>(ops: seq<Op<T>>)
    ensures Flow(ops).1 + Flow(ops).0 == Inputs(ops)
    decreases |ops|
  {
    if ops != [] { QueueIsFifo(ops[..|ops| - 1]); }
  }

  // ---------- dispatcher and worker ----------

  /**
   * One dispatcher and one worker. `pushed`: the dispatcher has pushed and not yet written its byte. `read`: the worker
   * has read a byte and not yet popped. `lost` counts the writes that failed; the dispatcher only logs those.
   */
  datatype Sys<T> = Sys(queue: seq<T>, pipe: nat, pushed: bool, read: bool, lost: nat, accepted: seq<T>,
                        delivered: seq<T>)

  datatype Step<T> = Push(x: T) | Write(ok: bool) | Read | Pop

  /** Whether the thread whose step it is can take it now; a worker about to pop waits while the queue is empty. */
  predicate Enabled<T(==)>(s: Sys<T>, step: Step<T>) {
    match step
    case Push(_) => !s.pushed
    case Write(_) => s.pushed
    case Read => !s.read && s.pipe > 0
    case Pop => s.read && s.queue != []
  }

  function Take<T(==)>(s: Sys<T>, step: Step<T>): Sys<T> {
    if !Enabled(s, step) then s
    else
      match step
      case Push(x) => s.(queue := After(s.queue, In(x)), pushed := true, accepted := s.accepted + [x])
      case Write(ok) => if ok then s.(pipe := s.pipe + 1, pushed := false) else s.(lost := s.lost + 1, pushed := false)
      case Read => s.(pipe := s.pipe - 1, read := true)
      case Pop => s.(queue := After(s.queue, Out), read := false, delivered := s.delivered + [s.queue[0]])
  }

  /** Any interleaving of the two threads; a step that is not enabled is a thread that waits. */
  function Exec<T(==)>(steps: seq<Step<T>>): Sys<T>
    decreases |steps|
  {
    if steps == [] then Sys([], 0, false, false, 0, [], [])
    else Take(Exec(steps[..|steps| - 1]), steps[|steps| - 1])
  }

  function Bit(b: bool): nat { if b then 1 else 0 }

  /** The queue is as long as the bytes in the pipe and the steps in flight on either side, and those never sent. */
  predicate Books<T(==)>(s: Sys<T>) {
    && |s.queue| == s.pipe + Bit(s.pushed) + Bit(s.read) + s.lost
    && s.accepted == s.delivered + s.queue
  }

  lemma {:induction false} BooksBalance<T>(steps: seq<Step<T>>)
    ensures Books(Exec(steps))
    decreases |steps|
  {
    if steps != [] {
      BooksBalance(steps[..|steps| - 1]);
      var s := Exec(steps[..|steps| - 1]);
      if steps[|steps| - 1].Pop? && Enabled(s, Pop) {
        assert s.queue == [s.queue[0]] + s.queue[1..];
      }
    }
  }

  /** wait_and_pop never waits: a worker that has read a byte finds an item, whatever the other thread is doing. */
  lemma PopNeverWaits<T>(steps: seq<Step<T>>)
    ensures Exec(steps).read ==> Enabled(Exec(steps), Pop)
  {
    BooksBalance(steps);
  }

  /** Sockets are delivered in the order they were accepted, none twice. */
  lemma DeliveredInOrder<T>(steps: seq<Step<T>>)
    ensures Exec(steps).delivered <= Exec(steps).accepted
  {
    BooksBalance(steps);
  }

  /**
   * "Every accepted socket is delivered" is false: a byte the pipe does not take leaves its socket behind for as long
   * as nothing else is accepted.
   */
  lemma AFailedWriteStrands()
    ensures var s := Exec([Push(7), Write(false)]);
            s.accepted == [7] && s.delivered == [] && !Enabled(s, Read) && !Enabled(s, Pop) && !Enabled(s, Write(true))
  {
    var steps: seq<Step<int>> := [Push(7), Write(false)];
    assert steps[..1] == [Push(7)] && steps[..1][..0] == [];
  }

  /** Once both threads are idle, as many sockets are stranded as writes have failed; so none exactly when none has. */
  lemma StrandedAreTheFailedWrites<T>(steps: seq<Step<T>>)
    ensures var s := Exec(steps);
            !s.pushed && !s.read && s.pipe == 0 ==>
              |s.accepted| - |s.delivered| == s.lost && (s.delivered == s.accepted <==> s.lost == 0)
  {
    BooksBalance(steps);
  }

  /** Steps left until the two threads are idle, when nothing more is accepted. */
  function Left<T(==)>(s: Sys<T>): nat { 3 * Bit(s.pushed) + 2 * s.pipe + Bit(s.read) }

  /**
   * Progress: while something is in flight a step is enabled, and every enabled step but an accept brings the end
   * closer.
   */
  lemma HandOffProgress<T>(steps: seq<Step<T>>, step: Step<T>)
    ensures var s := Exec(steps);
            && (Left(s) > 0 ==> Enabled(s, Write(true)) || Enabled(s, Read) || Enabled(s, Pop))
            && (Enabled(s, step) && !step.Push? ==> Left(Take(s, step)) < Left(s))
            && (Left(s) == 0 ==> !s.pushed && !s.read && s.pipe == 0)
  {
    BooksBalance(steps);
  }
}
