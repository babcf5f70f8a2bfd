/** The writer thread as a loop over the backend's fields. Other threads queue records whenever the
writer does not hold the queue lock: before each look at the front buffer and while a batch is written.
What else may happen, the switch to direct writing above all, is in LoggerProtocol. */
module LogWriter {
  import opened LogBackend
  import opened LoggerProtocol

  function Entries(buffer: seq<Stamped>): seq<Entry> {
    seq(|buffer|, i requires 0 <= i < |buffer| => Queued(buffer[i]))
  }

  function Notes(dropped: int): seq<Entry> {
    if dropped > 0 then [Note(dropped)] else []
  }

  lemma EntriesSplit(sink: seq<Entry>, buffer: seq<Stamped>)
    requires buffer != []
    ensures sink + Entries(buffer) == sink + Entries(buffer[..|buffer| - 1]) + [Queued(buffer[|buffer| - 1])]
  {
  }

  lemma OneEntry(sink: seq<Entry>, st: Stamped, numbered: seq<Rec>, k: nat)
    requires k < |numbered| && numbered[k] == st.rec && QueuedRecs(sink) == numbered[..k]
    ensures QueuedRecs(sink + [Queued(st)]) == numbered[..k + 1]
    ensures NoteSum(sink + [Queued(st)]) == NoteSum(sink)
  {
    SinkAppend(sink, Queued(st));
    assert numbered[..k] + [numbered[k]] == numbered[..k + 1];
  }

  lemma HoldsFront(buffer: seq<Stamped>, numbered: seq<Rec>, from: nat, to: nat)
    requires Holds(buffer, numbered, from, to) && buffer != []
    ensures from < to && Holds(buffer[..|buffer| - 1], numbered, from, to - 1)
    ensures numbered[to - 1] == buffer[|buffer| - 1].rec
  {
  }

  /** Writing a buffer that holds the next numbers moves exactly these records into the sink. */
  lemma {:induction false} EntriesAppend(sink: seq<Entry>, buffer: seq<Stamped>, numbered: seq<Rec>, from: nat, to: nat)
    requires Holds(buffer, numbered, from, to) && QueuedRecs(sink) == numbered[..from]
    ensures QueuedRecs(sink + Entries(buffer)) == numbered[..to]
    ensures NoteSum(sink + Entries(buffer)) == NoteSum(sink)
    decreases |buffer|
  {
    if buffer == [] {
      assert sink + Entries(buffer) == sink;
    } else {
      HoldsFront(buffer, numbered, from, to);
      EntriesAppend(sink, buffer[..|buffer| - 1], numbered, from, to - 1);
      OneEntry(sink + Entries(buffer[..|buffer| - 1]), buffer[|buffer| - 1], numbered, to - 1);
      EntriesSplit(sink, buffer);
    }
  }

  lemma NotesAppend(sink: seq<Entry>, dropped: int)
    requires dropped >= 0
    ensures QueuedRecs(sink + Notes(dropped)) == QueuedRecs(sink)
    ensures NoteSum(sink + Notes(dropped)) == NoteSum(sink) + dropped
  {
    if dropped > 0 { NoteAppend(sink, dropped); } else { assert sink + [] == sink; }
  }

  ghost predicate ErrorsBelow(sink: seq<Entry>, durable: nat) {
    durable <= |sink| && forall k :: 0 <= k < |sink| && IsError(sink[k]) ==> k < durable
  }

  /** What became of a record that came to the queue. */
  datatype Fate = Queues | Drops | Waits

  /** The records with this fate, in the order in which they came. */
  function Of(arrived: seq<Rec>, fates: seq<Fate>, fate: Fate): seq<Rec>
    requires |arrived| == |fates|
  {
    if arrived == [] then []
    else
      var n := |arrived| - 1;
      Of(arrived[..n], fates[..n], fate) + if fates[n] == fate then [arrived[n]] else []
  }

  ghost predicate AllAccounted(arrived: seq<Rec>, fates: seq<Fate>, numbered: seq<Rec>, droppedTotal: nat) {
    && |arrived| == |fates|
    && numbered == Of(arrived, fates, Queues) && droppedTotal == |Of(arrived, fates, Drops)|
    && forall k :: 0 <= k < |fates| ==>
         (fates[k].Drops? ==> arrived[k].level.Trace?) && (fates[k].Waits? ==> !arrived[k].level.Trace?)
  }

  lemma OneMoreArrived(arrived: seq<Rec>, fates: seq<Fate>, numbered: seq<Rec>, droppedTotal: nat, rec: Rec, fate: Fate)
    requires AllAccounted(arrived, fates, numbered, droppedTotal)
    requires (fate.Drops? ==> rec.level.Trace?) && (fate.Waits? ==> !rec.level.Trace?)
    ensures AllAccounted(arrived + [rec], fates + [fate],
      if fate.Queues? then numbered + [rec] else numbered, droppedTotal + if fate.Drops? then 1 else 0)
  {
    assert (arrived + [rec])[..|arrived|] == arrived && (fates + [fate])[..|fates|] == fates;
  }

  function AllOf(groups: seq<seq<Rec>>): seq<Rec> {
    if groups == [] then [] else AllOf(groups[..|groups| - 1]) + groups[|groups| - 1]
  }

  lemma AllOfOne(groups: seq<seq<Rec>>, i: nat, j: nat)
    requires i <= j <= |groups| && j <= i + 1
    ensures AllOf(groups[i..j]) == if i == j then [] else groups[i]
  {
    if i < j { assert groups[i..j] == [groups[i]] && [groups[i]][..0] == []; }
  }

  lemma AllOfNext(groups: seq<seq<Rec>>, i: nat, j: nat)
    requires i < j <= |groups|
    ensures AllOf(groups[i..j]) == AllOf(groups[i..j - 1]) + groups[j - 1]
  {
    assert groups[i..j][..|groups[i..j]| - 1] == groups[i..j - 1];
  }

  lemma FirstPart(groups: seq<seq<Rec>>, j: nat)
    requires j <= |groups|
    ensures groups[0..j] == groups[..j]
  {
  }

  lemma {:induction false} AllOfMore(groups: seq<seq<Rec>>, i: nat, j: nat)
    requires i <= j <= |groups|
    ensures AllOf(groups[..j]) == AllOf(groups[..i]) + AllOf(groups[i..j])
    decreases j
  {
    if i == j {
      assert groups[i..j] == [];
    } else {
      AllOfMore(groups, i, j - 1);
      AllOfNext(groups, 0, j);
      AllOfNext(groups, i, j);
      FirstPart(groups, j - 1);
      FirstPart(groups, j);
      var before, between, last := AllOf(groups[..i]), AllOf(groups[i..j - 1]), groups[j - 1];
      assert before + between + last == before + (between + last);
    }
  }

  lemma AllOfSplit(groups: seq<seq<Rec>>, i: nat, j: nat, k: nat)
    requires i <= j <= k <= |groups|
    ensures AllOf(groups[i..k]) == AllOf(groups[i..j]) + AllOf(groups[j..k])
  {
    AllOfMore(groups[i..k], j - i, k - i);
    assert groups[i..k][..k - i] == groups[i..k] && groups[i..k][..j - i] == groups[i..j];
    assert groups[i..k][j - i..k - i] == groups[j..k];
  }

  lemma ArrivedSoFar(start: seq<Rec>, groups: seq<seq<Rec>>, i: nat, j: nat)
    requires i <= j <= |groups|
    ensures start + AllOf(groups[..i]) + AllOf(groups[i..j]) == start + AllOf(groups[..j])
  {
    AllOfMore(groups, i, j);
  }

  lemma ArrivedSince(start: seq<Rec>, groups: seq<seq<Rec>>, i: nat, j: nat, k: nat)
    requires i <= j <= k <= |groups|
    ensures start + AllOf(groups[i..j]) + AllOf(groups[j..k]) == start + AllOf(groups[i..k])
  {
    AllOfSplit(groups, i, j, k);
  }

  function FateOf(outcome: Outcome): Fate {
    if outcome.Enqueued? then Queues else if outcome.Dropped? then Drops else Waits
  }

  /** The backend and the history agree. */
  ghost predicate Agrees(b: Backend, arrived: seq<Rec>, fates: seq<Fate>, numbered: seq<Rec>) {
    && Sound(b) && |numbered| == b.enqueuedSeq
    && AllAccounted(arrived, fates, numbered, b.droppedTotal)
    && Holds(b.front, numbered, |numbered| - |b.front|, |numbered|)
  }

  /** What an arrival leaves alone. */
  ghost predicate OnlyQueued(b: Backend, numbered: seq<Rec>, b': Backend, numbered': seq<Rec>) {
    && |numbered'| - |b'.front| == |numbered| - |b.front| && numbered <= numbered' && b'.back == b.back
    && b'.flushedSeq == b.flushedSeq && b'.droppedReported == b.droppedReported
    && b'.running == b.running && b'.stopping == b.stopping
  }

  /** That is so whatever the batch in flight. */
  lemma AgreesStill(b: Backend, b': Backend, arrived: seq<Rec>, fates: seq<Fate>, numbered: seq<Rec>)
    requires Agrees(b, arrived, fates, numbered) && b' == b.(back := b'.back, flushedSeq := b'.flushedSeq)
    ensures Agrees(b', arrived, fates, numbered)
  {
  }

  lemma ArrivalFrame(b: Backend, rec: Rec, numbered: seq<Rec>)
    ensures var (b', outcome) := Enqueue(b, rec, true);
      OnlyQueued(b, numbered, b', if FateOf(outcome).Queues? then numbered + [rec] else numbered)
  {
  }

  lemma ArrivalHolds(b: Backend, rec: Rec, numbered: seq<Rec>)
    requires |numbered| == b.enqueuedSeq && |b.front| <= b.capacity && 1 <= b.capacity
    requires Holds(b.front, numbered, |numbered| - |b.front|, |numbered|)
    ensures var (b', outcome) := Enqueue(b, rec, true);
      var numbered' := if FateOf(outcome).Queues? then numbered + [rec] else numbered;
      |numbered'| == b'.enqueuedSeq && Holds(b'.front, numbered', |numbered'| - |b'.front|, |numbered'|)
  {
  }

  lemma ArrivalFate(b: Backend, rec: Rec, arrived: seq<Rec>, fates: seq<Fate>, numbered: seq<Rec>)
    requires b.running && AllAccounted(arrived, fates, numbered, b.droppedTotal)
    ensures var (b', outcome) := Enqueue(b, rec, true);
      AllAccounted(arrived + [rec], fates + [FateOf(outcome)],
        if FateOf(outcome).Queues? then numbered + [rec] else numbered, b'.droppedTotal)
  {
    OneMoreArrived(arrived, fates, numbered, b.droppedTotal, rec, FateOf(Enqueue(b, rec, true).1));
  }

  /** The queue and the history after one more arrival. */
  lemma ArrivalKeeps(b: Backend, rec: Rec, arrived: seq<Rec>, fates: seq<Fate>, numbered: seq<Rec>)
    requires b.running && Agrees(b, arrived, fates, numbered)
    ensures var (b', outcome) := Enqueue(b, rec, true);
      var fate := FateOf(outcome);
      var numbered' := if fate.Queues? then numbered + [rec] else numbered;
      Agrees(b', arrived + [rec], fates + [fate], numbered') && OnlyQueued(b, numbered, b', numbered')
  {
    EnqueueKeepsSound(b, rec, true);
    ArrivalFrame(b, rec, numbered);
    ArrivalHolds(b, rec, numbered);
    ArrivalFate(b, rec, arrived, fates, numbered);
  }

  /** What writing a batch makes of the sink. */
  lemma BatchWritten(sink: seq<Entry>, buffer: seq<Stamped>, batch: Batch, numbered: seq<Rec>, from: nat, to: nat, durable: nat)
    requires Holds(buffer, numbered, from, to) && QueuedRecs(sink) == numbered[..from]
    requires ErrorsBelow(sink, durable) && Describes(batch, buffer)
    ensures var all := sink + Entries(buffer) + Notes(batch.dropped);
      && QueuedRecs(all) == numbered[..to] && NoteSum(all) == NoteSum(sink) + batch.dropped
      && ErrorsBelow(all, if batch.durable then |all| else durable)
  {
    EntriesAppend(sink, buffer, numbered, from, to);
    NotesAppend(sink + Entries(buffer), batch.dropped);
    BatchErrors(sink, buffer, batch, durable);
  }

  class Writer {
    const backend: LogBackend
    var sink: seq<Entry>
    var flushed: nat
    var durable: nat
    /** What has come to the queue, and what became of each. */
    ghost var arrived: seq<Rec>
    ghost var fates: seq<Fate>
    /** What has been queued; the record at i has number i + 1. */
    ghost var numbered: seq<Rec>

    constructor (backend: LogBackend)
      ensures this.backend == backend && sink == [] && flushed == durable == 0
      ensures arrived == [] && fates == [] && numbered == []
    {
      this.backend := backend;
      sink, flushed, durable := [], 0, 0;
      arrived, fates, numbered := [], [], [];
    }

    /** How many queued records have left the front buffer. */
    ghost function Gone(): int
      reads this`numbered, backend`front
    {
      |numbered| - |backend.front|
    }

    ghost predicate Counted()
      reads this`numbered, this`arrived, this`fates, backend
    {
      Agrees(backend.View(), arrived, fates, numbered)
    }

    /** Between batches everything that has left the front buffer is written, flushed and published, and
    the notes account for the drops that were reported. */
    ghost predicate Between()
      reads this, backend
    {
      && Counted() && backend.back == [] && backend.flushedSeq == Gone()
      && QueuedRecs(sink) == numbered[..Gone()] && NoteSum(sink) == backend.droppedReported
      && flushed == |sink| && ErrorsBelow(sink, durable)
    }

    /** While a batch is in flight. */
    ghost predicate InFlight(batch: Batch)
      reads this, backend
    {
      && Counted() && batch.lastSeq == Gone() && Describes(batch, backend.back)
      && backend.flushedSeq + |backend.back| == Gone()
      && Holds(backend.back, numbered, backend.flushedSeq, Gone())
      && QueuedRecs(sink) == numbered[..backend.flushedSeq]
      && NoteSum(sink) + batch.dropped == backend.droppedReported
      && ErrorsBelow(sink, durable)
    }

    /** What the visits of other threads to the queue leave alone. */
    twostate predicate OnlyArrivals()
      reads this`numbered, backend
    {
      OnlyQueued(old(backend.View()), old(numbered), backend.View(), numbered)
    }

    method Visit(rec: Rec) returns (outcome: Outcome)
      requires backend.Valid()
      modifies backend
      ensures backend.Valid() && (backend.View(), outcome) == Enqueue(old(backend.View()), rec, true)
    {
      var wake;
      outcome, wake := backend.TryEnqueue(rec, true);
    }

    method ArriveOne(rec: Rec)
      requires Counted() && backend.running
      modifies this`numbered, this`arrived, this`fates, backend
      ensures Counted() && OnlyArrivals() && arrived == old(arrived) + [rec]
    {
      ArrivalKeeps(backend.View(), rec, arrived, fates, numbered);
      var outcome := Visit(rec);
      Account(rec, FateOf(outcome));
    }

    ghost method Account(rec: Rec, fate: Fate)
      modifies this`numbered, this`arrived, this`fates
      ensures arrived == old(arrived) + [rec] && fates == old(fates) + [fate]
      ensures numbered == if fate.Queues? then old(numbered) + [rec] else old(numbered)
    {
      arrived, fates := arrived + [rec], fates + [fate];
      numbered := if fate.Queues? then numbered + [rec] else numbered;
    }

    /** Other threads visit the queue; the ones told to wait are still waiting afterwards. */
    method Arrive(recs: seq<Rec>)
      requires Counted() && backend.running
      modifies this`numbered, this`arrived, this`fates, backend
      ensures Counted() && OnlyArrivals() && arrived == old(arrived) + recs
    {
      for i := 0 to |recs|
        invariant Counted() && OnlyArrivals() && arrived == old(arrived) + recs[..i]
      {
        ArriveOne(recs[i]);
      }
    }

    method Take() returns (batch: Batch)
      requires Between() && backend.front != []
      modifies backend
      ensures InFlight(batch) && backend.front == []
      ensures backend.running == old(backend.running) && backend.stopping == old(backend.stopping)
    {
      batch := backend.Swap();
    }

    /** Under the write lock: the records of the batch, a note if records were dropped, and the flush. */
    method WriteBatch(batch: Batch)
      modifies this`sink, this`flushed, this`durable, backend`back
      ensures sink == old(sink) + Entries(old(backend.back)) + Notes(batch.dropped)
      ensures flushed == |sink| && durable == (if batch.durable then |sink| else old(durable))
      ensures backend.back == []
    {
      for i := 0 to |backend.back|
        invariant sink == old(sink) + Entries(old(backend.back))[..i]
        invariant backend.back == old(backend.back) && durable == old(durable)
      {
        sink := sink + [Queued(backend.back[i])];
      }
      if batch.dropped > 0 {
        sink := sink + [Note(batch.dropped)];
      }
      flushed := |sink|;
      if batch.durable { durable := |sink|; }
      backend.back := [];
    }

    /** The batch is written and then published. */
    method FinishBatch(batch: Batch)
      requires InFlight(batch)
      modifies this`sink, this`flushed, this`durable, backend`back, backend`flushedSeq
      ensures Between() && numbered == old(numbered) && backend.front == old(backend.front)
      ensures backend.running == old(backend.running) && backend.stopping == old(backend.stopping)
    {
      BatchWritten(sink, backend.back, batch, numbered, backend.flushedSeq, Gone(), durable);
      ghost var b := backend.View();
      WriteBatch(batch);
      AgreesStill(b, backend.View(), arrived, fates, numbered);
      backend.Finish(batch.lastSeq);
      AgreesStill(b, backend.View(), arrived, fates, numbered);
    }

    method ArriveBetween(recs: seq<Rec>)
      requires Between() && backend.running
      modifies this`numbered, this`arrived, this`fates, backend
      ensures Between() && OnlyArrivals() && arrived == old(arrived) + recs
    {
      Arrive(recs);
      assert numbered[..Gone()] == old(numbered)[..Gone()];
    }

    method ArriveInFlight(recs: seq<Rec>, ghost batch: Batch)
      requires InFlight(batch) && backend.running
      modifies this`numbered, this`arrived, this`fates, backend
      ensures InFlight(batch) && OnlyArrivals() && arrived == old(arrived) + recs
    {
      Arrive(recs);
      assert numbered[..backend.flushedSeq] == old(numbered)[..backend.flushedSeq];
    }

    method RequestStop()
      requires Between()
      modifies backend`stopping
      ensures Between() && backend.stopping
    {
      backend.stopping := true;
    }

    /** One batch, during which the next group arrives, if there is one. */
    method Round(arrivals: seq<seq<Rec>>, i: nat) returns (j: nat)
      requires Between() && backend.running && backend.front != [] && i <= |arrivals|
      modifies this, backend
      ensures Between() && backend.running && backend.stopping == old(backend.stopping)
      ensures i <= j <= |arrivals| && (i == j ==> backend.front == [])
      ensures arrived == old(arrived) + AllOf(arrivals[i..j])
    {
      j := i;
      var batch := Take();
      if i < |arrivals| {
        ArriveInFlight(arrivals[i], batch);
        j := i + 1;
      }
      FinishBatch(batch);
      AllOfOne(arrivals, i, j);
    }

    lemma AllWritten()
      requires Between() && backend.front == []
      ensures QueuedRecs(sink) == numbered && backend.flushedSeq == backend.enqueuedSeq == |numbered|
      ensures NoteSum(sink) == backend.droppedTotal == backend.droppedReported
    {
      assert numbered[..|numbered|] == numbered;
    }

    /** Before the writer looks at the front buffer: the next group arrives, or the stop is requested. */
    method Wake(arrivals: seq<seq<Rec>>, i: nat) returns (j: nat)
      requires Between() && backend.running && i <= |arrivals| && (backend.stopping ==> i == |arrivals|)
      modifies this`numbered, this`arrived, this`fates, backend
      ensures i <= j <= |arrivals| && (backend.stopping <==> i == |arrivals|)
      ensures Between() && backend.running && arrived == old(arrived) + AllOf(arrivals[i..j])
      ensures i == j ==> i == |arrivals| && backend.front == old(backend.front)
    {
      j := i;
      if i < |arrivals| {
        ArriveBetween(arrivals[i]);
        j := i + 1;
      } else {
        RequestStop();
      }
      AllOfOne(arrivals, i, j);
    }

    /** One turn of the writer's loop: a batch is written, or the loop is left. */
    method Turn(arrivals: seq<seq<Rec>>, i: nat) returns (j: nat, done: bool)
      requires Between() && backend.running && i <= |arrivals| && (backend.stopping ==> i == |arrivals|)
      modifies this, backend
      ensures Between() && i <= j <= |arrivals| && arrived == old(arrived) + AllOf(arrivals[i..j])
      ensures backend.stopping ==> j == |arrivals|
      ensures i == j && !done ==> old(backend.front) != [] && backend.front == []
      ensures if done then !backend.running && backend.front == [] && j == |arrivals| else backend.running
    {
      done := false;
      j := Wake(arrivals, i);
      if backend.front == [] {
        if backend.stopping {
          backend.Close();
          done := true;
        }
      } else {
        ghost var k := j;
        j := Round(arrivals, j);
        ArrivedSince(old(arrived), arrivals, i, k, j);
      }
    }

    /** The writer's loop. Group by group, `arrivals` come whenever the queue lock is free, and after the
    last group the stop is requested. When the writer leaves, each arrival has been queued, dropped, which
    happens to TRACE only, or sent to wait, which happens to the others; what was queued has been handed to
    the sinks, in the order of arrival, once, flushed, ERRORs durably; every drop is in a note; and the
    backend is closed with nothing in it. */
    method BackendThreadMain(arrivals: seq<seq<Rec>>)
      requires Between() && backend.running && !backend.stopping
      modifies this, backend
      ensures Between() && !backend.running && backend.front == []
      ensures arrived == old(arrived) + AllOf(arrivals) && AllAccounted(arrived, fates, numbered, backend.droppedTotal)
      ensures QueuedRecs(sink) == Of(arrived, fates, Queues) && backend.flushedSeq == backend.enqueuedSeq
      ensures NoteSum(sink) == |Of(arrived, fates, Drops)| == backend.droppedReported
    {
      var i, done := 0, false;
      assert arrivals[..0] == [];
      while !done
        invariant Between() && i <= |arrivals| && arrived == old(arrived) + AllOf(arrivals[..i])
        invariant backend.stopping ==> i == |arrivals|
        invariant if done then !backend.running && backend.front == [] && i == |arrivals| else backend.running
        decreases |arrivals| - i, |backend.front|, !done
      {
        ghost var k := i;
        i, done := Turn(arrivals, i);
        ArrivedSoFar(old(arrived), arrivals, k, i);
      }
      AllWritten();
      assert arrivals[..i] == arrivals;
    }

    /** Stopping: the writer runs to its end and is joined, and the reset that follows discards nothing. */
    method StopAndDrain(arrivals: seq<seq<Rec>>)
      requires Between() && backend.running && !backend.stopping
      modifies this, backend
      ensures !backend.running && backend.front == backend.back == []
      ensures arrived == old(arrived) + AllOf(arrivals) && AllAccounted(arrived, fates, numbered, backend.droppedTotal)
      ensures QueuedRecs(sink) == Of(arrived, fates, Queues) && backend.flushedSeq == backend.enqueuedSeq
      ensures NoteSum(sink) == |Of(arrived, fates, Drops)| && ErrorsBelow(sink, durable)
    {
      BackendThreadMain(arrivals);
      backend.ResetAfterJoin();
    }
  }

  lemma BatchErrors(sink: seq<Entry>, buffer: seq<Stamped>, batch: Batch, durable: nat)
    requires ErrorsBelow(sink, durable) && Describes(batch, buffer)
    ensures var all := sink + Entries(buffer) + Notes(batch.dropped);
      ErrorsBelow(all, if batch.durable then |all| else durable)
  {
    var all := sink + Entries(buffer) + Notes(batch.dropped);
    forall k | 0 <= k < |all| && IsError(all[k]) ensures batch.durable || k < durable {
      if |sink| <= k < |sink| + |buffer| { assert all[k] == Queued(buffer[k - |sink|]); }
    }
  }
}
