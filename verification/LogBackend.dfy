/** The double-buffered queue between the threads that log and the thread that writes.

`Backend` is its state as a value and the functions on it are the critical sections under the queue
lock; the class changes the same fields in place. */
module LogBackend {

  datatype Level = Trace | Info | Warn | Error

  /** The `index`-th submission of one thread. */
  datatype Rec = Rec(thread: nat, index: nat, level: Level)

  /** A record with the sequence number it was given when it was queued. */
  datatype Stamped = Stamped(seqNo: nat, rec: Rec)

  datatype Backend = Backend(
    front: seq<Stamped>,
    back: seq<Stamped>,
    enqueuedSeq: nat,
    flushedSeq: nat,
    droppedTotal: nat,
    droppedReported: nat,
    capacity: nat,
    running: bool,
    stopping: bool,
    errorPending: bool)

  datatype Outcome = Enqueued(seqNo: nat) | Dropped | NotRunning | MustWait

  /** What the writer takes away from the lock: flush to disk?, TRACE records to report, last number. */
  datatype Batch = Batch(durable: bool, dropped: int, lastSeq: nat)

  function Started(capacity: nat): Backend {
    Backend([], [], 0, 0, 0, 0, if capacity == 0 then 1 else capacity, true, false, false)
  }

  predicate Full(b: Backend) {
    |b.front| >= b.capacity
  }

  /** Numbers the record and puts it into the front buffer. */
  function Append(b: Backend, rec: Rec): Backend {
    b.(enqueuedSeq := b.enqueuedSeq + 1,
       errorPending := b.errorPending || rec.level.Error?,
       front := b.front + [Stamped(b.enqueuedSeq + 1, rec)])
  }

  /** The number is handed back when the buffer cannot grow; the error mark stays. */
  function AppendFails(b: Backend, rec: Rec): Backend {
    b.(errorPending := b.errorPending || rec.level.Error?)
  }

  /** One visit to the queue lock by a thread that wants to queue `rec`, whether its first or the one
  after waiting for space; `canGrow` is whether the buffer accepts another element. */
  function Enqueue(b: Backend, rec: Rec, canGrow: bool): (Backend, Outcome) {
    if !b.running then (b, NotRunning)
    else if Full(b) then
      if rec.level.Trace? then (b.(droppedTotal := b.droppedTotal + 1), Dropped) else (b, MustWait)
    else if canGrow then (Append(b, rec), Enqueued(b.enqueuedSeq + 1))
    else (AppendFails(b, rec), NotRunning)
  }

  /** The writer swaps the buffers and takes note of what it has to do for this batch. */
  function TakeBatch(b: Backend): (Backend, Batch)
    requires b.front != []
  {
    (b.(front := b.back, back := b.front, errorPending := false, droppedReported := b.droppedTotal),
     Batch(b.errorPending, b.droppedTotal - b.droppedReported, b.front[|b.front| - 1].seqNo))
  }

  function FinishBatch(b: Backend, lastSeq: nat): Backend {
    b.(flushedSeq := lastSeq)
  }

  /** After the writer has been joined: mark everything as written and release the buffers. */
  function Reset(b: Backend): Backend {
    b.(running := false, flushedSeq := b.enqueuedSeq, front := [], back := [])
  }

  // ---------------------------------------------------------------- what every critical section keeps

  /** The front buffer ends with the last number given out and is consecutive. */
  ghost predicate Consecutive(front: seq<Stamped>, last: nat) {
    |front| <= last && forall k :: 0 <= k < |front| ==> front[k].seqNo == last - |front| + k + 1
  }

  predicate HoldsError(front: seq<Stamped>) {
    exists k :: 0 <= k < |front| && front[k].rec.level.Error?
  }

  ghost predicate Sound(b: Backend) {
    && 1 <= b.capacity && |b.front| <= b.capacity
    && Consecutive(b.front, b.enqueuedSeq)
    && b.droppedReported <= b.droppedTotal
    && (b.droppedReported != b.droppedTotal ==> Full(b))
    && (HoldsError(b.front) ==> b.errorPending)
  }

  /** A batch tells what its records are. */
  ghost predicate Describes(batch: Batch, records: seq<Stamped>) {
    && records != [] && Consecutive(records, batch.lastSeq)
    && (HoldsError(records) ==> batch.durable) && batch.dropped >= 0
  }

  lemma StartedSound(capacity: nat)
    ensures Sound(Started(capacity))
  {
  }

  /** The backend after visits by these records, and before the writer's first swap. */
  function Visited(b: Backend, recs: seq<Rec>): Backend {
    if recs == [] then b else Enqueue(Visited(b, recs[..|recs| - 1]), recs[|recs| - 1], true).0
  }

  /** What visits without a swap make of a backend with this much room. */
  ghost predicate Filled(b: Backend, recs: seq<Rec>, room: nat) {
    && b.running && b.capacity == room
    && |b.front| == b.enqueuedSeq == (if |recs| < room then |recs| else room)
    && (forall k :: 0 <= k < |b.front| ==> b.front[k] == Stamped(k + 1, recs[k]))
    && b.droppedTotal == Overflow(recs, room)
  }

  lemma FilledMore(b: Backend, recs: seq<Rec>, room: nat, rec: Rec)
    requires Filled(b, recs, room) && room > 0
    ensures Filled(Enqueue(b, rec, true).0, recs + [rec], room)
  {
    if |recs| >= room {
      OverflowMore(recs, room, rec);
    } else {
      AppendFills(b, recs, room, rec);
    }
  }

  lemma AppendFills(b: Backend, recs: seq<Rec>, room: nat, rec: Rec)
    requires Filled(b, recs, room) && |recs| < room
    ensures Filled(Append(b, rec), recs + [rec], room)
  {
  }

  /** The TRACE records beyond the room. */
  function Overflow(recs: seq<Rec>, room: nat): nat {
    if |recs| <= room then 0 else Traces(recs[room..])
  }

  lemma OverflowMore(recs: seq<Rec>, room: nat, rec: Rec)
    requires |recs| >= room
    ensures Overflow(recs + [rec], room) == Overflow(recs, room) + if rec.level.Trace? then 1 else 0
  {
    assert (recs + [rec])[room..] == recs[room..] + [rec];
    assert |recs| == room ==> recs[room..] == [];
    TracesSnoc(recs[room..], rec);
  }

  /** A backend asked for a capacity of n queues the first n records, or the first one for n = 0, and from
  then on only counts TRACE records and sends the others to wait. */
  lemma {:induction false} HoldsCapacity(n: nat, recs: seq<Rec>)
    ensures Filled(Visited(Started(n), recs), recs, if n == 0 then 1 else n)
  {
    if recs != [] {
      var front, last := recs[..|recs| - 1], recs[|recs| - 1];
      HoldsCapacity(n, front);
      FilledMore(Visited(Started(n), front), front, if n == 0 then 1 else n, last);
      assert recs == front + [last];
    }
  }

  function Traces(recs: seq<Rec>): nat {
    if recs == [] then 0 else Traces(recs[..|recs| - 1]) + if recs[|recs| - 1].level.Trace? then 1 else 0
  }

  lemma TracesSnoc(recs: seq<Rec>, rec: Rec)
    ensures Traces(recs + [rec]) == Traces(recs) + if rec.level.Trace? then 1 else 0
  {
    assert (recs + [rec])[..|recs|] == recs;
  }

  lemma AppendSound(b: Backend, rec: Rec)
    requires Sound(b) && !Full(b)
    ensures Sound(Append(b, rec))
  {
    var front := Append(b, rec).front;
    if HoldsError(front) {
      var k :| 0 <= k < |front| && front[k].rec.level.Error?;
      if k < |b.front| { assert front[k] == b.front[k]; }
    }
  }

  lemma EnqueueKeepsSound(b: Backend, rec: Rec, canGrow: bool)
    requires Sound(b)
    ensures Sound(Enqueue(b, rec, canGrow).0)
  {
    if b.running && !Full(b) { AppendSound(b, rec); }
  }

  /** After the swap nothing is left to report, and the batch is what was queued. */
  lemma TakeBatchKeepsSound(b: Backend)
    requires Sound(b) && b.front != [] && b.back == []
    ensures Sound(TakeBatch(b).0) && TakeBatch(b).0.back == b.front
    ensures Describes(TakeBatch(b).1, b.front) && TakeBatch(b).1.lastSeq == b.enqueuedSeq
    ensures TakeBatch(b).1.dropped > 0 ==> Full(b)
  {
  }

  class LogBackend {
    var front: seq<Stamped>
    var back: seq<Stamped>
    var enqueuedSeq: nat
    var flushedSeq: nat
    var droppedTotal: nat
    var droppedReported: nat
    var capacity: nat
    var running: bool
    var stopping: bool
    var errorPending: bool

    function View(): Backend
      reads this
    {
      Backend(front, back, enqueuedSeq, flushedSeq, droppedTotal, droppedReported, capacity, running, stopping, errorPending)
    }

    ghost predicate Valid()
      reads this
    {
      Sound(View())
    }

    constructor Start(capacity: nat)
      ensures Valid() && View() == Started(capacity)
      ensures this.capacity == if capacity > 0 then capacity else 1
    {
      this.capacity := if capacity == 0 then 1 else capacity;
      front, back, enqueuedSeq, flushedSeq, droppedTotal, droppedReported := [], [], 0, 0, 0, 0;
      running, stopping, errorPending := true, false, false;
      new;
      StartedSound(capacity);
    }

    /** A record is queued behind all others and numbered, or dropped and counted, which only a full
    buffer does and only to TRACE; or the thread is sent away and the queue is as before. The writer is
    woken for the first record and for an ERROR. */
    method TryEnqueue(rec: Rec, canGrow: bool) returns (outcome: Outcome, wake: bool)
      requires Valid()
      modifies this
      ensures Valid() && (View(), outcome) == Enqueue(old(View()), rec, canGrow)
      ensures outcome.Enqueued? <==> old(running) && |old(front)| < capacity && canGrow
      ensures outcome.Dropped? <==> old(running) && |old(front)| == capacity && rec.level.Trace?
      ensures outcome.MustWait? <==> old(running) && |old(front)| == capacity && !rec.level.Trace?
      ensures front == (if outcome.Enqueued? then old(front) + [Stamped(outcome.seqNo, rec)] else old(front))
      ensures outcome.Enqueued? ==> outcome.seqNo == enqueuedSeq && (wake <==> old(front) == [] || rec.level.Error?)
      ensures droppedTotal == old(droppedTotal) + if outcome.Dropped? then 1 else 0
      ensures errorPending == (old(errorPending) || (old(running) && |old(front)| < capacity && rec.level.Error?))
      ensures capacity == old(capacity)
    {
      EnqueueKeepsSound(View(), rec, canGrow);
      wake := false;
      if !running {
        return NotRunning, wake;
      }
      if |front| >= capacity {
        if rec.level.Trace? {
          droppedTotal := droppedTotal + 1;
          return Dropped, wake;
        }
        return MustWait, wake;
      }
      enqueuedSeq := enqueuedSeq + 1;
      var stamped := Stamped(enqueuedSeq, rec);
      if rec.level.Error? {
        errorPending := true;
      }
      wake := front == [] || rec.level.Error?;
      if canGrow {
        front := front + [stamped];
      } else {
        enqueuedSeq := enqueuedSeq - 1;
        return NotRunning, wake;
      }
      outcome := Enqueued(stamped.seqNo);
    }

    /** Takes all that is queued away as one batch: consecutive numbers up to the last one given out, to
    be flushed durably if there is an ERROR among them, together with every drop not yet reported. */
    method Swap() returns (batch: Batch)
      requires Valid() && front != [] && back == []
      modifies this
      ensures Valid() && (View(), batch) == TakeBatch(old(View()))
      ensures front == [] && back == old(front) && Describes(batch, back) && batch.lastSeq == enqueuedSeq
      ensures batch.durable == old(errorPending) && !errorPending
      ensures old(droppedReported) + batch.dropped == droppedReported == droppedTotal == old(droppedTotal)
    {
      TakeBatchKeepsSound(View());
      front, back := back, front;
      var durable := errorPending;
      errorPending := false;
      var dropped := droppedTotal - droppedReported;
      droppedReported := droppedTotal;
      batch := Batch(durable, dropped, back[|back| - 1].seqNo);
    }

    method Finish(lastSeq: nat)
      requires Valid()
      modifies this`flushedSeq
      ensures Valid() && View() == FinishBatch(old(View()), lastSeq)
    {
      flushedSeq := lastSeq;
    }

    /** Under the lock, with nothing queued, so that every later visit finds nothing running. */
    method Close()
      requires Valid() && front == []
      modifies this`running
      ensures Valid() && View() == old(View()).(running := false)
    {
      running := false;
    }

    /** What the switch does after the join. With nothing queued or unpublished it changes nothing. */
    method ResetAfterJoin()
      requires Valid()
      modifies this
      ensures View() == Reset(old(View())) && (old(front) == [] ==> Valid())
      ensures old(!running && front == back == [] && flushedSeq == enqueuedSeq && droppedReported == droppedTotal) ==>
        View() == old(View())
    {
      running := false;
      flushedSeq := enqueuedSeq;
      front, back := [], [];
    }
  }
}
