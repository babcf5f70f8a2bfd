/** Every interleaving of the threads that log, the writer thread and the switch from queued to direct
writing. The steps are the critical sections of LogBackend and the reads and writes of the mode. */
module LoggerProtocol {
  import opened Options
  import opened LogBackend

  datatype Mode = Async | Draining | Sync

  /** What is handed to the sinks: a queued record, a record written by its own thread, or the note
  about dropped TRACE records. */
  datatype Entry = Queued(stamped: Stamped) | Direct(rec: Rec) | Note(dropped: int)

  datatype WriterPc =
    | Polling
    | Taken(batch: Batch)                             // buffers swapped, write lock not yet held
    | Writing(batch: Batch, start: nat, done: nat)    // write lock held since |sink| == start
    | Finishing(batch: Batch)                         // written and flushed, number not yet published
    | Exited

  datatype SwitchPc = NotStarted | Claimed | Joining | Joined | WasReset | Switched

  datatype ClientPc =
    | Idle
    | Got(rec: Rec)        // has read Async, about to queue
    | Blocked(rec: Rec)    // waiting for space
    | Flushing(seqNo: nat, explicitly: bool) // waiting for a number to be flushed, for its record or in Flush
    | Waiting(rec: Rec)    // in WaitWhileDraining
    | Writes(rec: Rec)     // about to write by itself
    | Aiming               // in Flush, has read Async, about to read the last number
    | Pausing              // in Flush, in WaitWhileDraining
    | Pushing              // in Flush, about to push the file out

  datatype System = System(
    b: Backend,
    mode: Mode,
    writer: WriterPc,
    switcher: SwitchPc,
    clients: map<nat, ClientPc>,
    sink: seq<Entry>,
    flushed: nat,                    // entries pushed out of the process
    durable: nat,                    // entries flushed to disk
    submitted: map<nat, seq<Rec>>,   // history: submissions of each thread
    numbered: seq<Rec>,              // history: queued records; the one at i has number i + 1
    dropped: seq<Rec>,               // history: dropped records
    disturbed: bool                  // a drain wait timed out or a buffer could not grow
  )

  datatype ClientAction =
    | Submit(level: Level)
    | TryQueue(canGrow: bool)
    | FlushDone
    | FlushTimeout
    | DrainDone
    | DrainTimeout
    | WriteDirect
    | StartFlush
    | AimFlush
    | PauseDone
    | PauseTimeout
    | PushFile

  datatype WriterAction = Take | LockSink | WriteOne | EndBatch | Publish | Exit

  datatype SwitchAction = Claim | RequestStop | Join | ResetBackend | SetSync

  datatype Label =
    | Client(t: nat, c: ClientAction)
    | Writer(w: WriterAction)
    | Switch(s: SwitchAction)

  ghost predicate ClientEnabled(s: System, t: nat, c: ClientAction) {
    && t in s.clients && t in s.submitted
    && var pc := s.clients[t];
       match c
       case Submit(_) => pc.Idle?
       case TryQueue(_) => pc.Got? || (pc.Blocked? && (!Full(s.b) || !s.b.running))
       case FlushDone => pc.Flushing? && (s.b.flushedSeq >= pc.seqNo || !s.b.running)
       case FlushTimeout => pc.Flushing?
       case DrainDone => pc.Waiting? && !s.mode.Draining?
       case DrainTimeout => pc.Waiting? && s.mode.Draining?
       case WriteDirect => pc.Writes? && !s.writer.Writing?
       case StartFlush => pc.Idle?
       case AimFlush => pc.Aiming?
       case PauseDone => pc.Pausing? && !s.mode.Draining?
       case PauseTimeout => pc.Pausing? && s.mode.Draining?
       case PushFile => pc.Pushing? && !s.writer.Writing?
  }

  /** The visit to the queue lock with the record `rec` in hand. */
  function TryQueueNext(s: System, t: nat, rec: Rec, canGrow: bool): System {
    var (b, outcome) := Enqueue(s.b, rec, canGrow);
    match outcome
    case Enqueued(n) =>
      s.(b := b, numbered := s.numbered + [rec],
         clients := s.clients[t := if rec.level.Error? then Flushing(n, false) else Idle])
    case Dropped => s.(b := b, dropped := s.dropped + [rec], clients := s.clients[t := Idle])
    case NotRunning => s.(b := b, clients := s.clients[t := Waiting(rec)], disturbed := s.disturbed || s.b.running)
    case MustWait => s.(clients := s.clients[t := Blocked(rec)])
  }

  function ClientNext(s: System, t: nat, c: ClientAction): System
    requires ClientEnabled(s, t, c)
  {
    var pc := s.clients[t];
    match c
    case Submit(level) =>
      var rec := Rec(t, |s.submitted[t]|, level);
      s.(clients := s.clients[t := if s.mode.Async? then Got(rec) else Waiting(rec)],
         submitted := s.submitted[t := s.submitted[t] + [rec]])
    case TryQueue(canGrow) => TryQueueNext(s, t, pc.rec, canGrow)
    case FlushDone => s.(clients := s.clients[t := if pc.explicitly then Pausing else Idle])
    case FlushTimeout => s.(clients := s.clients[t := if pc.explicitly then Pausing else Idle])
    case DrainDone => s.(clients := s.clients[t := Writes(pc.rec)])
    case DrainTimeout => s.(clients := s.clients[t := Writes(pc.rec)], disturbed := true)
    case WriteDirect =>
      s.(clients := s.clients[t := Idle], sink := s.sink + [Direct(pc.rec)], flushed := |s.sink| + 1,
         durable := if pc.rec.level.Error? then |s.sink| + 1 else s.durable)
    case StartFlush => s.(clients := s.clients[t := if s.mode.Async? then Aiming else Pausing])
    case AimFlush => s.(clients := s.clients[t := Flushing(s.b.enqueuedSeq, true)])
    case PauseDone => s.(clients := s.clients[t := Pushing])
    case PauseTimeout => s.(clients := s.clients[t := Pushing])
    case PushFile => s.(clients := s.clients[t := Idle], flushed := |s.sink|)
  }

  ghost predicate WriterEnabled(s: System, w: WriterAction) {
    match w
    case Take => s.writer.Polling? && s.b.front != []
    case LockSink => s.writer.Taken?
    case WriteOne => s.writer.Writing? && s.writer.done < |s.b.back|
    case EndBatch => s.writer.Writing? && s.writer.done == |s.b.back|
    case Publish => s.writer.Finishing?
    case Exit => s.writer.Polling? && s.b.front == [] && s.b.stopping
  }

  function WriterNext(s: System, w: WriterAction): System
    requires WriterEnabled(s, w)
  {
    match w
    case Take =>
      var (b, batch) := TakeBatch(s.b);
      s.(b := b, writer := Taken(batch))
    case LockSink => s.(writer := Writing(s.writer.batch, |s.sink|, 0))
    case WriteOne =>
      s.(sink := s.sink + [Queued(s.b.back[s.writer.done])], writer := s.writer.(done := s.writer.done + 1))
    case EndBatch =>
      var batch := s.writer.batch;
      var sink := if batch.dropped > 0 then s.sink + [Note(batch.dropped)] else s.sink;
      s.(sink := sink, flushed := |sink|, durable := if batch.durable then |sink| else s.durable,
         b := s.b.(back := []), writer := Finishing(batch))
    case Publish => s.(b := FinishBatch(s.b, s.writer.batch.lastSeq), writer := Polling)
    case Exit => s.(b := s.b.(running := false), writer := Exited)
  }

  ghost predicate SwitchEnabled(s: System, a: SwitchAction) {
    match a
    case Claim => s.mode.Async?
    case RequestStop => s.switcher.Claimed?
    case Join => s.switcher.Joining? && s.writer.Exited?
    case ResetBackend => s.switcher.Joined?
    case SetSync => s.switcher.WasReset?
  }

  function SwitchNext(s: System, a: SwitchAction): System
    requires SwitchEnabled(s, a)
  {
    match a
    case Claim => s.(mode := Draining, switcher := Claimed)
    case RequestStop =>
      if s.b.running then s.(b := s.b.(stopping := true), switcher := Joining) else s.(switcher := WasReset)
    case Join => s.(switcher := Joined)
    case ResetBackend => s.(b := Reset(s.b), switcher := WasReset)
    case SetSync => s.(mode := Sync, switcher := Switched)
  }

  ghost predicate Enabled(s: System, l: Label) {
    match l
    case Client(t, c) => ClientEnabled(s, t, c)
    case Writer(w) => WriterEnabled(s, w)
    case Switch(a) => SwitchEnabled(s, a)
  }

  function Next(s: System, l: Label): System
    requires Enabled(s, l)
  {
    match l
    case Client(t, c) => ClientNext(s, t, c)
    case Writer(w) => WriterNext(s, w)
    case Switch(a) => SwitchNext(s, a)
  }

  ghost predicate Init(s: System) {
    && (exists capacity: nat :: s.b == Started(capacity))
    && s.mode.Async? && s.writer.Polling? && s.switcher.NotStarted?
    && s.clients.Keys == s.submitted.Keys
    && (forall t :: t in s.clients ==> s.clients[t].Idle?)
    && (forall t :: t in s.submitted ==> s.submitted[t] == [])
    && s.sink == [] && s.flushed == s.durable == 0
    && s.numbered == [] && s.dropped == [] && !s.disturbed
  }

  ghost predicate IsRun(trace: seq<System>, labels: seq<Label>) {
    && |trace| == |labels| + 1
    && forall i :: 0 <= i < |labels| ==> Enabled(trace[i], labels[i]) && trace[i + 1] == Next(trace[i], labels[i])
  }

  // ---------------------------------------------------------------- what the sinks have received

  function Part(e: Entry): seq<Rec> {
    if e.Queued? then [e.stamped.rec] else []
  }

  function RecOf(e: Entry): seq<Rec> {
    match e
    case Queued(st) => [st.rec]
    case Direct(rec) => [rec]
    case Note(_) => []
  }

  /** The queued records among the entries. */
  function QueuedRecs(sink: seq<Entry>): seq<Rec> {
    if sink == [] then [] else QueuedRecs(sink[..|sink| - 1]) + Part(sink[|sink| - 1])
  }

  /** All records among the entries. */
  function SinkRecs(sink: seq<Entry>): seq<Rec> {
    if sink == [] then [] else SinkRecs(sink[..|sink| - 1]) + RecOf(sink[|sink| - 1])
  }

  /** The number of drops reported by the notes. */
  function NoteSum(sink: seq<Entry>): int {
    if sink == [] then 0 else NoteSum(sink[..|sink| - 1]) + if sink[|sink| - 1].Note? then sink[|sink| - 1].dropped else 0
  }

  lemma SinkAppend(sink: seq<Entry>, e: Entry)
    ensures QueuedRecs(sink + [e]) == QueuedRecs(sink) + Part(e)
    ensures SinkRecs(sink + [e]) == SinkRecs(sink) + RecOf(e)
    ensures NoteSum(sink + [e]) == NoteSum(sink) + if e.Note? then e.dropped else 0
  {
    assert (sink + [e])[..|sink|] == sink;
  }

  lemma NoteAppend(sink: seq<Entry>, n: int)
    ensures QueuedRecs(sink + [Note(n)]) == QueuedRecs(sink)
    ensures SinkRecs(sink + [Note(n)]) == SinkRecs(sink)
    ensures NoteSum(sink + [Note(n)]) == NoteSum(sink) + n
  {
    SinkAppend(sink, Note(n));
  }

  lemma DirectAppend(sink: seq<Entry>, rec: Rec)
    ensures QueuedRecs(sink + [Direct(rec)]) == QueuedRecs(sink)
    ensures SinkRecs(sink + [Direct(rec)]) == SinkRecs(sink) + [rec]
    ensures NoteSum(sink + [Direct(rec)]) == NoteSum(sink)
  {
    SinkAppend(sink, Direct(rec));
  }

  /** Writing the next queued record moves it from the buffers to the sink. */
  lemma QueuedAppend(sink: seq<Entry>, st: Stamped, numbered: seq<Rec>, h: nat)
    requires h < |numbered| && numbered[h] == st.rec
    ensures QueuedRecs(sink) == numbered[..h] ==> QueuedRecs(sink + [Queued(st)]) == numbered[..h + 1]
    ensures SinkRecs(sink + [Queued(st)]) + numbered[h + 1..] == SinkRecs(sink) + numbered[h..]
    ensures NoteSum(sink + [Queued(st)]) == NoteSum(sink)
  {
    SinkAppend(sink, Queued(st));
    assert numbered[..h] + [numbered[h]] == numbered[..h + 1];
    TailMoves(SinkRecs(sink), numbered, h);
  }

  lemma TailMoves(before: seq<Rec>, rest: seq<Rec>, h: nat)
    requires h < |rest|
    ensures before + [rest[h]] + rest[h + 1..] == before + rest[h..]
  {
    assert rest[h..] == [rest[h]] + rest[h + 1..];
  }

  predicate IsError(e: Entry) {
    match e
    case Queued(st) => st.rec.level.Error?
    case Direct(rec) => rec.level.Error?
    case Note(_) => false
  }

  // ---------------------------------------------------------------- invariants

  predicate Busy(w: WriterPc) {
    w.Taken? || w.Writing? || w.Finishing?
  }

  /** How many queued records have been handed to the sinks. */
  function Handled(s: System): int {
    match s.writer
    case Writing(_, _, done) => s.b.flushedSeq + done
    case Finishing(batch) => batch.lastSeq
    case _ => s.b.flushedSeq
  }

  /** How many queued records have left the front buffer. */
  function TakenTo(s: System): int {
    if Busy(s.writer) then s.writer.batch.lastSeq else s.b.flushedSeq
  }

  /** How many entries belong to batches whose flush is over. */
  function Sealed(s: System): nat {
    if s.writer.Writing? then s.writer.start else |s.sink|
  }

  ghost predicate Holds(buffer: seq<Stamped>, numbered: seq<Rec>, from: int, to: int) {
    && 0 <= from <= to <= |numbered| && |buffer| == to - from
    && forall k :: 0 <= k < |buffer| ==> buffer[k] == Stamped(from + k + 1, numbered[from + k])
  }

  /** The batch in flight and the front buffer hold exactly the numbers after flushedSeq. */
  ghost predicate NumbersOk(s: System) {
    && |s.numbered| == s.b.enqueuedSeq
    && s.b.flushedSeq <= Handled(s) <= TakenTo(s) <= |s.numbered|
    && Holds(s.b.front, s.numbered, TakenTo(s), |s.numbered|)
    && |s.b.front| <= s.b.capacity && 1 <= s.b.capacity
    && (if s.writer.Taken? || s.writer.Writing?
        then Holds(s.b.back, s.numbered, s.b.flushedSeq, TakenTo(s)) else s.b.back == [])
  }

  ghost predicate ModesOk(s: System) {
    && (s.writer.Exited? <==> !s.b.running)
    && (!s.b.running ==> s.b.front == [] && s.b.stopping)
    && (s.b.stopping ==> !s.mode.Async?)
    && (s.mode.Async? <==> s.switcher.NotStarted?)
    && (s.mode.Sync? <==> s.switcher.Switched?)
    && (s.switcher.Claimed? ==> !s.b.stopping)
    && (s.switcher.Joining? ==> s.b.stopping)
    && (s.switcher.Joined? || s.switcher.WasReset? || s.switcher.Switched? ==> s.writer.Exited?)
  }

  /** Queued records reach the sinks once each, in the order of their numbers. */
  ghost predicate SinkOk(s: System) {
    && 0 <= Handled(s) <= |s.numbered|
    && QueuedRecs(s.sink) == s.numbered[..Handled(s)]
  }

  /** While a batch is written, the entries before it hold what was published, and those after are the
  batch so far. */
  ghost predicate BatchOk(s: System) {
    s.writer.Writing? ==>
      && |s.sink| == s.writer.start + s.writer.done && s.writer.done <= |s.b.back|
      && s.b.flushedSeq <= |s.numbered|
      && QueuedRecs(s.sink[..s.writer.start]) == s.numbered[..s.b.flushedSeq]
      && forall k :: s.writer.start <= k < |s.sink| ==> s.sink[k] == Queued(s.b.back[k - s.writer.start])
  }

  ghost predicate DropsOk(s: System) {
    && |s.dropped| == s.b.droppedTotal
    && s.b.droppedReported <= s.b.droppedTotal
    && (s.b.droppedReported != s.b.droppedTotal ==> |s.b.front| == s.b.capacity)
    && NoteSum(s.sink) + (if s.writer.Taken? || s.writer.Writing? then s.writer.batch.dropped else 0) == s.b.droppedReported
    && (s.writer.Taken? || s.writer.Writing? ==> s.writer.batch.dropped >= 0)
    && forall r :: r in s.dropped ==> r.level.Trace?
  }

  ghost predicate ErrorsOk(s: System) {
    && (forall k :: 0 <= k < |s.b.front| && s.b.front[k].rec.level.Error? ==> s.b.errorPending)
    && (s.writer.Taken? || s.writer.Writing? ==>
          forall k :: 0 <= k < |s.b.back| && s.b.back[k].rec.level.Error? ==> s.writer.batch.durable)
    && s.durable <= s.flushed == Sealed(s)
    && forall k :: 0 <= k < Sealed(s) && k < |s.sink| && IsError(s.sink[k]) ==> k < s.durable
  }

  function Held(pc: ClientPc): Option<Rec> {
    if pc.Got? || pc.Blocked? || pc.Waiting? || pc.Writes? then Some(pc.rec) else None
  }

  ghost predicate Submitted(s: System, r: Rec) {
    r.thread in s.submitted && r.index < |s.submitted[r.thread]| && s.submitted[r.thread][r.index] == r
  }

  ghost predicate InHand(s: System, r: Rec) {
    r.thread in s.clients && Held(s.clients[r.thread]) == Some(r)
  }

  /** How often a record occurs in the sinks, in the buffers and among the dropped. */
  function Places(s: System): multiset<Rec>
    requires 0 <= Handled(s) <= |s.numbered|
  {
    multiset(SinkRecs(s.sink)) + multiset(s.numbered[Handled(s)..]) + multiset(s.dropped)
  }

  /** Submissions are numbered per thread, and what a thread holds is its latest one. */
  ghost predicate HandsOk(s: System) {
    && s.clients.Keys == s.submitted.Keys
    && (forall t, k :: t in s.submitted && 0 <= k < |s.submitted[t]| ==>
          s.submitted[t][k].thread == t && s.submitted[t][k].index == k)
    && forall t :: t in s.clients && Held(s.clients[t]).Some? ==>
         && |s.submitted[t]| > 0 && Held(s.clients[t]).value == s.submitted[t][|s.submitted[t]| - 1]
  }

  /** A submitted record is in one place or in its thread's hands; no other record is anywhere. */
  ghost predicate ConserveOk(s: System) {
    && 0 <= Handled(s) <= |s.numbered|
    && HandsOk(s)
    && forall r: Rec :: Places(s)[r] == if Submitted(s, r) && !InHand(s, r) then 1 else 0
  }

  /** The records of each thread are in the order of their submission. */
  ghost predicate Ordered(rs: seq<Rec>) {
    forall i, j :: 0 <= i < j < |rs| && rs[i].thread == rs[j].thread ==> rs[i].index < rs[j].index
  }

  ghost predicate OrderOk(s: System) {
    && 0 <= Handled(s) <= |s.numbered|
    && (!s.disturbed ==> Ordered(SinkRecs(s.sink) + s.numbered[Handled(s)..]))
    && forall t :: t in s.clients && !s.disturbed ==>
         && (s.clients[t].Waiting? ==> !s.mode.Async?)
         && (s.clients[t].Writes? ==> !s.b.running)
  }

  ghost predicate FlushersOk(s: System) {
    forall t :: t in s.clients && s.clients[t].Flushing? ==> s.clients[t].seqNo <= s.b.enqueuedSeq
  }

  ghost predicate Inv(s: System) {
    NumbersOk(s) && ModesOk(s) && SinkOk(s) && BatchOk(s) && DropsOk(s) && ErrorsOk(s) && ConserveOk(s) && OrderOk(s) && FlushersOk(s)
  }

  // ---------------------------------------------------------------- each step keeps each invariant

  /** What stays the same, and what only grows, when a thread makes a step. */
  ghost predicate Framed(s: System, s': System) {
    && s'.writer == s.writer && s'.switcher == s.switcher && s'.mode == s.mode
    && s'.b.back == s.b.back && s'.b.flushedSeq == s.b.flushedSeq && s'.b.running == s.b.running
    && s'.b.stopping == s.b.stopping && s'.b.capacity == s.b.capacity
    && s'.b.droppedReported == s.b.droppedReported
    && s'.clients.Keys == s.clients.Keys && s'.submitted.Keys == s.submitted.Keys
    && s.numbered <= s'.numbered && s.b.front <= s'.b.front
  }

  lemma EnqueueFrame(b: Backend, rec: Rec, canGrow: bool)
    ensures var b' := Enqueue(b, rec, canGrow).0;
      && b' == b.(front := b'.front, enqueuedSeq := b'.enqueuedSeq, droppedTotal := b'.droppedTotal, errorPending := b'.errorPending)
      && b.front <= b'.front
  {
  }

  lemma TryQueueFrame(s: System, t: nat, rec: Rec, canGrow: bool)
    requires t in s.clients
    ensures Framed(s, TryQueueNext(s, t, rec, canGrow)) && TryQueueNext(s, t, rec, canGrow).sink == s.sink
  {
    EnqueueFrame(s.b, rec, canGrow);
  }

  /** Steps other than a visit to the queue and a direct write touch only the threads themselves, but for
  the file that Flush pushes out. */
  lemma PassiveFrame(s: System, t: nat, c: ClientAction)
    requires ClientEnabled(s, t, c) && !c.TryQueue? && !c.WriteDirect?
    ensures var s' := ClientNext(s, t, c);
      s' == s.(clients := s'.clients, submitted := s'.submitted, disturbed := s'.disturbed, flushed := s'.flushed)
    ensures ClientNext(s, t, c).flushed == if c.PushFile? then |s.sink| else s.flushed
    ensures Framed(s, ClientNext(s, t, c))
  {
  }

  /** A thread's step leaves the writer and what it holds alone. */
  lemma ClientFrame(s: System, t: nat, c: ClientAction)
    requires ClientEnabled(s, t, c)
    ensures Framed(s, ClientNext(s, t, c))
    ensures Handled(ClientNext(s, t, c)) == Handled(s) && TakenTo(ClientNext(s, t, c)) == TakenTo(s)
  {
    if c.TryQueue? {
      TryQueueFrame(s, t, s.clients[t].rec, c.canGrow);
    } else if !c.WriteDirect? {
      PassiveFrame(s, t, c);
    }
  }

  lemma EnqueueHolds(b: Backend, rec: Rec, canGrow: bool, numbered: seq<Rec>, from: int)
    requires Holds(b.front, numbered, from, |numbered|) && |numbered| == b.enqueuedSeq
    requires |b.front| <= b.capacity && 1 <= b.capacity
    ensures var b', numbered' := Enqueue(b, rec, canGrow).0, if Enqueue(b, rec, canGrow).1.Enqueued? then numbered + [rec] else numbered;
      Holds(b'.front, numbered', from, |numbered'|) && |numbered'| == b'.enqueuedSeq && |b'.front| <= b'.capacity
  {
  }

  lemma TryQueueKeepsNumbers(s: System, t: nat, rec: Rec, canGrow: bool)
    requires NumbersOk(s) && t in s.clients
    ensures NumbersOk(TryQueueNext(s, t, rec, canGrow))
  {
    TryQueueFrame(s, t, rec, canGrow);
    EnqueueHolds(s.b, rec, canGrow, s.numbered, TakenTo(s));
  }

  lemma ClientKeepsNumbers(s: System, t: nat, c: ClientAction)
    requires NumbersOk(s) && ClientEnabled(s, t, c)
    ensures NumbersOk(ClientNext(s, t, c))
  {
    if c.TryQueue? {
      TryQueueKeepsNumbers(s, t, s.clients[t].rec, c.canGrow);
    } else if !c.WriteDirect? {
      PassiveFrame(s, t, c);
    }
  }

  lemma WriterKeepsNumbers(s: System, w: WriterAction)
    requires NumbersOk(s) && ModesOk(s) && WriterEnabled(s, w)
    ensures NumbersOk(WriterNext(s, w))
  {
  }

  /** Releasing the buffers after the join discards nothing and publishes nothing new. */
  lemma ResetIsNothing(s: System)
    requires NumbersOk(s) && ModesOk(s) && s.switcher.Joined?
    ensures Reset(s.b) == s.b
  {
  }

  /** The switch changes the mode, its own position and the request to stop, and nothing else. */
  lemma SwitchFrame(s: System, a: SwitchAction)
    requires NumbersOk(s) && ModesOk(s) && SwitchEnabled(s, a)
    ensures var s' := SwitchNext(s, a);
      s' == s.(mode := s'.mode, switcher := s'.switcher, b := s.b.(stopping := s'.b.stopping))
  {
    if a.ResetBackend? { ResetIsNothing(s); }
  }

  lemma SwitchKeepsNumbers(s: System, a: SwitchAction)
    requires NumbersOk(s) && ModesOk(s) && SwitchEnabled(s, a)
    ensures NumbersOk(SwitchNext(s, a))
  {
    SwitchFrame(s, a);
  }

  lemma WriterKeepsModes(s: System, w: WriterAction)
    requires ModesOk(s) && WriterEnabled(s, w)
    ensures ModesOk(WriterNext(s, w))
  {
  }

  lemma SwitchKeepsModes(s: System, a: SwitchAction)
    requires ModesOk(s) && SwitchEnabled(s, a)
    ensures ModesOk(SwitchNext(s, a))
  {
  }

  lemma ClientKeepsModes(s: System, t: nat, c: ClientAction)
    requires ModesOk(s) && ClientEnabled(s, t, c)
    ensures ModesOk(ClientNext(s, t, c))
  {
    ClientFrame(s, t, c);
  }

  lemma ClientKeepsSink(s: System, t: nat, c: ClientAction)
    requires SinkOk(s) && ClientEnabled(s, t, c)
    ensures SinkOk(ClientNext(s, t, c))
  {
    ClientFrame(s, t, c);
    assert ClientNext(s, t, c).numbered[..Handled(s)] == s.numbered[..Handled(s)];
    if c.WriteDirect? {
      DirectAppend(s.sink, s.clients[t].rec);
    }
  }

  lemma ClientKeepsBatch(s: System, t: nat, c: ClientAction)
    requires BatchOk(s) && ClientEnabled(s, t, c)
    ensures BatchOk(ClientNext(s, t, c))
  {
    if s.writer.Writing? {
      if c.TryQueue? {
        TryQueueKeepsBatch(s, t, s.clients[t].rec, c.canGrow);
      } else {
        PassiveFrame(s, t, c);
      }
    }
  }

  lemma TryQueueKeepsBatch(s: System, t: nat, rec: Rec, canGrow: bool)
    requires BatchOk(s) && t in s.clients
    ensures BatchOk(TryQueueNext(s, t, rec, canGrow))
  {
    TryQueueFrame(s, t, rec, canGrow);
    SameBatch(s, TryQueueNext(s, t, rec, canGrow));
  }

  lemma SameBatch(s: System, s': System)
    requires BatchOk(s) && s'.sink == s.sink && s'.writer == s.writer && s.numbered <= s'.numbered
    requires s'.b.back == s.b.back && s'.b.flushedSeq == s.b.flushedSeq
    ensures BatchOk(s')
  {
    if s.writer.Writing? {
      assert s'.numbered[..s.b.flushedSeq] == s.numbered[..s.b.flushedSeq];
    }
  }

  lemma WriteOneFacts(s: System)
    requires NumbersOk(s) && WriterEnabled(s, WriteOne)
    ensures var s' := WriterNext(s, WriteOne);
      && 0 <= Handled(s) < |s.numbered| && Handled(s') == Handled(s) + 1
      && s.b.back[s.writer.done].rec == s.numbered[Handled(s)]
      && s'.numbered == s.numbered && s'.sink == s.sink + [Queued(s.b.back[s.writer.done])]
  {
  }

  lemma WriteOneKeepsSink(s: System)
    requires NumbersOk(s) && SinkOk(s) && WriterEnabled(s, WriteOne)
    ensures SinkOk(WriterNext(s, WriteOne))
  {
    WriteOneFacts(s);
    OneMoreQueued(s.sink, s.b.back[s.writer.done], s.numbered, Handled(s));
  }

  lemma OneMoreQueued(sink: seq<Entry>, st: Stamped, numbered: seq<Rec>, h: nat)
    requires h < |numbered| && numbered[h] == st.rec && QueuedRecs(sink) == numbered[..h]
    ensures QueuedRecs(sink + [Queued(st)]) == numbered[..h + 1]
  {
    QueuedAppend(sink, st, numbered, h);
  }

  lemma EndBatchKeepsSink(s: System)
    requires NumbersOk(s) && SinkOk(s) && WriterEnabled(s, EndBatch)
    ensures SinkOk(WriterNext(s, EndBatch))
  {
    EndBatchFacts(s);
    NoteAppend(s.sink, s.writer.batch.dropped);
    SinkSame(s, WriterNext(s, EndBatch));
  }

  lemma EndBatchFacts(s: System)
    requires NumbersOk(s) && WriterEnabled(s, EndBatch)
    ensures var s' := WriterNext(s, EndBatch);
      && Handled(s') == Handled(s) && s'.numbered == s.numbered
      && s'.sink == if s.writer.batch.dropped > 0 then s.sink + [Note(s.writer.batch.dropped)] else s.sink
  {
  }

  lemma SinkSame(s: System, s': System)
    requires SinkOk(s) && Handled(s') == Handled(s) && s'.numbered == s.numbered
    requires QueuedRecs(s'.sink) == QueuedRecs(s.sink)
    ensures SinkOk(s')
  {
  }

  lemma WriterKeepsSink(s: System, w: WriterAction)
    requires NumbersOk(s) && SinkOk(s) && WriterEnabled(s, w)
    ensures SinkOk(WriterNext(s, w))
  {
    match w
    case WriteOne => WriteOneKeepsSink(s);
    case EndBatch => EndBatchKeepsSink(s);
    case _ =>
  }

  lemma WriteOneKeepsBatch(s: System)
    requires BatchOk(s) && WriterEnabled(s, WriteOne)
    ensures BatchOk(WriterNext(s, WriteOne))
  {
    OneMoreOfBatch(s.sink, s.b.back, s.writer.start, s.writer.done);
  }

  lemma OneMoreOfBatch(sink: seq<Entry>, back: seq<Stamped>, start: nat, done: nat)
    requires |sink| == start + done && done < |back|
    requires forall k :: start <= k < |sink| ==> sink[k] == Queued(back[k - start])
    ensures var sink' := sink + [Queued(back[done])];
      sink'[..start] == sink[..start] && forall k :: start <= k < |sink'| ==> sink'[k] == Queued(back[k - start])
  {
  }

  lemma WriterKeepsBatch(s: System, w: WriterAction)
    requires NumbersOk(s) && SinkOk(s) && BatchOk(s) && WriterEnabled(s, w)
    ensures BatchOk(WriterNext(s, w))
  {
    if w.WriteOne? {
      WriteOneKeepsBatch(s);
    } else if w.LockSink? {
      assert s.sink[..|s.sink|] == s.sink;
    }
  }

  lemma SwitchKeepsSink(s: System, a: SwitchAction)
    requires NumbersOk(s) && ModesOk(s) && SinkOk(s) && BatchOk(s) && SwitchEnabled(s, a)
    ensures SinkOk(SwitchNext(s, a)) && BatchOk(SwitchNext(s, a))
  {
    SwitchFrame(s, a);
    SameSink(s, SwitchNext(s, a));
  }

  lemma SameSink(s: System, s': System)
    requires SinkOk(s) && BatchOk(s) && s'.sink == s.sink && s'.numbered == s.numbered && s'.writer == s.writer
    requires s'.b.back == s.b.back && s'.b.flushedSeq == s.b.flushedSeq
    ensures SinkOk(s') && BatchOk(s')
  {
  }

  lemma TryQueueKeepsDrops(s: System, t: nat, rec: Rec, canGrow: bool)
    requires NumbersOk(s) && DropsOk(s) && t in s.clients
    ensures DropsOk(TryQueueNext(s, t, rec, canGrow))
  {
    TryQueueFrame(s, t, rec, canGrow);
  }

  lemma ClientKeepsDrops(s: System, t: nat, c: ClientAction)
    requires NumbersOk(s) && DropsOk(s) && ClientEnabled(s, t, c)
    ensures DropsOk(ClientNext(s, t, c))
  {
    if c.TryQueue? {
      TryQueueKeepsDrops(s, t, s.clients[t].rec, c.canGrow);
    } else if c.WriteDirect? {
      DirectAppend(s.sink, s.clients[t].rec);
    } else {
      PassiveFrame(s, t, c);
    }
  }

  lemma WriterKeepsDrops(s: System, w: WriterAction)
    requires NumbersOk(s) && DropsOk(s) && WriterEnabled(s, w)
    ensures DropsOk(WriterNext(s, w))
  {
    match w
    case WriteOne =>
      WriteOneFacts(s);
      QueuedAppend(s.sink, s.b.back[s.writer.done], s.numbered, Handled(s));
    case EndBatch => NoteAppend(s.sink, s.writer.batch.dropped);
    case _ =>
  }

  lemma SwitchKeepsDrops(s: System, a: SwitchAction)
    requires NumbersOk(s) && ModesOk(s) && DropsOk(s) && SwitchEnabled(s, a)
    ensures DropsOk(SwitchNext(s, a))
  {
    SwitchFrame(s, a);
  }

  lemma TryQueueKeepsErrors(s: System, t: nat, rec: Rec, canGrow: bool)
    requires ErrorsOk(s) && t in s.clients
    ensures ErrorsOk(TryQueueNext(s, t, rec, canGrow))
  {
    TryQueueFrame(s, t, rec, canGrow);
  }

  lemma DirectKeepsErrors(s: System, t: nat)
    requires NumbersOk(s) && BatchOk(s) && ErrorsOk(s) && ClientEnabled(s, t, WriteDirect)
    ensures ErrorsOk(ClientNext(s, t, WriteDirect))
  {
  }

  lemma ClientKeepsErrors(s: System, t: nat, c: ClientAction)
    requires NumbersOk(s) && BatchOk(s) && ErrorsOk(s) && ClientEnabled(s, t, c)
    ensures ErrorsOk(ClientNext(s, t, c))
  {
    if c.TryQueue? {
      TryQueueKeepsErrors(s, t, s.clients[t].rec, c.canGrow);
    } else if c.WriteDirect? {
      DirectKeepsErrors(s, t);
    } else {
      PassiveFrame(s, t, c);
    }
  }

  lemma WriterKeepsErrors(s: System, w: WriterAction)
    requires NumbersOk(s) && BatchOk(s) && ErrorsOk(s) && WriterEnabled(s, w)
    ensures ErrorsOk(WriterNext(s, w))
  {
  }

  lemma SwitchKeepsErrors(s: System, a: SwitchAction)
    requires NumbersOk(s) && ModesOk(s) && ErrorsOk(s) && SwitchEnabled(s, a)
    ensures ErrorsOk(SwitchNext(s, a))
  {
    SwitchFrame(s, a);
  }

  lemma ClientKeepsFlushers(s: System, t: nat, c: ClientAction)
    requires NumbersOk(s) && FlushersOk(s) && ClientEnabled(s, t, c)
    ensures FlushersOk(ClientNext(s, t, c))
  {
    if !c.TryQueue? && !c.WriteDirect? { PassiveFrame(s, t, c); }
  }

  lemma KeepsFlushers(s: System, l: Label)
    requires NumbersOk(s) && ModesOk(s) && FlushersOk(s) && Enabled(s, l)
    ensures FlushersOk(Next(s, l))
  {
    if l.Client? { ClientKeepsFlushers(s, l.t, l.c); }
  }

  /** What has been and will be written by way of the queue, in order. */
  function Log(s: System): seq<Rec>
    requires 0 <= Handled(s) <= |s.numbered|
  {
    SinkRecs(s.sink) + s.numbered[Handled(s)..]
  }

  lemma WriterKeepsLog(s: System, w: WriterAction)
    requires NumbersOk(s) && WriterEnabled(s, w)
    requires 0 <= Handled(WriterNext(s, w)) <= |s.numbered|
    ensures Log(WriterNext(s, w)) == Log(s)
  {
    match w
    case WriteOne =>
      WriteOneFacts(s);
      QueuedAppend(s.sink, s.b.back[s.writer.done], s.numbered, Handled(s));
    case EndBatch => NoteAppend(s.sink, s.writer.batch.dropped);
    case _ =>
  }

  lemma PlacesOfLog(s: System)
    requires 0 <= Handled(s) <= |s.numbered|
    ensures Places(s) == multiset(Log(s)) + multiset(s.dropped)
  {
  }

  lemma SamePlacesConserve(s: System, s': System)
    requires ConserveOk(s) && 0 <= Handled(s') <= |s'.numbered| && Places(s') == Places(s)
    requires s'.clients == s.clients && s'.submitted == s.submitted
    ensures ConserveOk(s')
  {
    forall r: Rec ensures Places(s')[r] == if Submitted(s', r) && !InHand(s', r) then 1 else 0 {
      assert Places(s)[r] == if Submitted(s, r) && !InHand(s, r) then 1 else 0;
    }
  }

  /** Conservation depends only on the log, the drops and what the threads hold. */
  lemma SameLogConserves(s: System, s': System)
    requires ConserveOk(s) && 0 <= Handled(s') <= |s'.numbered| && Log(s') == Log(s)
    requires s'.dropped == s.dropped && s'.clients == s.clients && s'.submitted == s.submitted
    ensures ConserveOk(s')
  {
    PlacesOfLog(s);
    PlacesOfLog(s');
    SamePlacesConserve(s, s');
  }

  lemma SwitchKeepsConserved(s: System, a: SwitchAction)
    requires NumbersOk(s) && ModesOk(s) && ConserveOk(s) && OrderOk(s) && SwitchEnabled(s, a)
    ensures ConserveOk(SwitchNext(s, a)) && OrderOk(SwitchNext(s, a))
  {
    SwitchFrame(s, a);
    SameLogConserves(s, SwitchNext(s, a));
  }

  lemma SubmitKeepsHands(s: System, s': System, t: nat, rec: Rec)
    requires HandsOk(s) && t in s.clients && s.clients[t].Idle? && rec.thread == t && rec.index == |s.submitted[t]|
    requires s'.submitted == s.submitted[t := s.submitted[t] + [rec]]
    requires s'.clients.Keys == s.clients.Keys && Held(s'.clients[t]) == Some(rec)
    requires forall u :: u in s.clients && u != t ==> s'.clients[u] == s.clients[u]
    ensures HandsOk(s')
  {
  }

  /** A thread's submission starts out in its hands. */
  lemma SubmitConserves(s: System, s': System, t: nat, rec: Rec)
    requires ConserveOk(s) && t in s.clients && s.clients[t].Idle? && rec.thread == t && rec.index == |s.submitted[t]|
    requires s'.submitted == s.submitted[t := s.submitted[t] + [rec]]
    requires s'.clients.Keys == s.clients.Keys && Held(s'.clients[t]) == Some(rec)
    requires forall u :: u in s.clients && u != t ==> s'.clients[u] == s.clients[u]
    requires 0 <= Handled(s') <= |s'.numbered| && Places(s') == Places(s)
    ensures ConserveOk(s')
  {
    SubmitKeepsHands(s, s', t, rec);
    forall r: Rec ensures Places(s')[r] == if Submitted(s', r) && !InHand(s', r) then 1 else 0 {
      SubmitLookup(s, s', t, rec, r);
    }
  }

  lemma SubmitLookup(s: System, s': System, t: nat, rec: Rec, r: Rec)
    requires s.clients.Keys == s.submitted.Keys
    requires t in s.clients && s.clients[t].Idle? && rec.thread == t && rec.index == |s.submitted[t]|
    requires s'.submitted == s.submitted[t := s.submitted[t] + [rec]]
    requires s'.clients.Keys == s.clients.Keys && Held(s'.clients[t]) == Some(rec)
    requires forall u :: u in s.clients && u != t ==> s'.clients[u] == s.clients[u]
    ensures Submitted(s', r) && !InHand(s', r) <==> Submitted(s, r) && !InHand(s, r)
  {
  }

  /** A step in which the thread goes on holding what it held. */
  lemma HoldingConserves(s: System, s': System, t: nat)
    requires ConserveOk(s) && t in s.clients && s'.submitted == s.submitted
    requires s'.clients.Keys == s.clients.Keys && Held(s'.clients[t]) == Held(s.clients[t])
    requires forall u :: u in s.clients && u != t ==> s'.clients[u] == s.clients[u]
    requires 0 <= Handled(s') <= |s'.numbered| && Places(s') == Places(s)
    ensures ConserveOk(s')
  {
    forall r: Rec ensures Places(s')[r] == if Submitted(s', r) && !InHand(s', r) then 1 else 0 {
      assert Submitted(s', r) == Submitted(s, r) && InHand(s', r) == InHand(s, r);
    }
  }

  /** A step in which the thread's record goes from its hands to one place. */
  lemma PlacingConserves(s: System, s': System, t: nat, rec: Rec)
    requires ConserveOk(s) && t in s.clients && Held(s.clients[t]) == Some(rec) && s'.submitted == s.submitted
    requires s'.clients.Keys == s.clients.Keys && Held(s'.clients[t]) == None
    requires forall u :: u in s.clients && u != t ==> s'.clients[u] == s.clients[u]
    requires 0 <= Handled(s') <= |s'.numbered| && Places(s') == Places(s) + multiset{rec}
    ensures ConserveOk(s')
  {
    forall r: Rec ensures Places(s')[r] == if Submitted(s', r) && !InHand(s', r) then 1 else 0 {
      assert Places(s)[r] == if Submitted(s, r) && !InHand(s, r) then 1 else 0;
      PlacingLookup(s, s', t, rec, r);
    }
  }

  lemma PlacingLookup(s: System, s': System, t: nat, rec: Rec, r: Rec)
    requires HandsOk(s) && t in s.clients && Held(s.clients[t]) == Some(rec) && s'.submitted == s.submitted
    requires s'.clients.Keys == s.clients.Keys && Held(s'.clients[t]) == None
    requires forall u :: u in s.clients && u != t ==> s'.clients[u] == s.clients[u]
    ensures Submitted(s', r) && !InHand(s', r) <==> (Submitted(s, r) && !InHand(s, r)) || r == rec
    ensures r == rec ==> InHand(s, r)
  {
    assert rec == s.submitted[t][|s.submitted[t]| - 1];
  }

  lemma QueueingPlaces(s: System, s': System, rec: Rec)
    requires 0 <= Handled(s) <= |s.numbered| && Handled(s') == Handled(s)
    requires s'.numbered == s.numbered + [rec] && s'.sink == s.sink && s'.dropped == s.dropped
    ensures Log(s') == Log(s) + [rec] && Places(s') == Places(s) + multiset{rec}
  {
    assert s'.numbered[Handled(s)..] == s.numbered[Handled(s)..] + [rec];
  }

  lemma DirectPlaces(s: System, s': System, rec: Rec)
    requires 0 <= Handled(s) <= |s.numbered| && Handled(s') == Handled(s)
    requires s'.numbered == s.numbered && s'.sink == s.sink + [Direct(rec)] && s'.dropped == s.dropped
    ensures Places(s') == Places(s) + multiset{rec}
  {
    DirectAppend(s.sink, rec);
  }

  lemma DirectLog(s: System, s': System, rec: Rec)
    requires 0 <= Handled(s) == |s.numbered| && Handled(s') == Handled(s)
    requires s'.numbered == s.numbered && s'.sink == s.sink + [Direct(rec)]
    ensures Log(s') == Log(s) + [rec]
  {
    DirectAppend(s.sink, rec);
    assert s.numbered[Handled(s)..] == [];
  }

  lemma EnqueuedConserves(s: System, t: nat, rec: Rec, canGrow: bool)
    requires ConserveOk(s) && t in s.clients && Held(s.clients[t]) == Some(rec)
    requires Enqueue(s.b, rec, canGrow).1.Enqueued?
    ensures ConserveOk(TryQueueNext(s, t, rec, canGrow))
  {
    var s' := TryQueueNext(s, t, rec, canGrow);
    QueueingPlaces(s, s', rec);
    PlacingConserves(s, s', t, rec);
  }

  lemma DroppedConserves(s: System, t: nat, rec: Rec, canGrow: bool)
    requires ConserveOk(s) && t in s.clients && Held(s.clients[t]) == Some(rec)
    requires Enqueue(s.b, rec, canGrow).1.Dropped?
    ensures ConserveOk(TryQueueNext(s, t, rec, canGrow))
  {
    PlacingConserves(s, TryQueueNext(s, t, rec, canGrow), t, rec);
  }

  lemma TryQueueConserves(s: System, t: nat, canGrow: bool)
    requires ConserveOk(s) && ClientEnabled(s, t, TryQueue(canGrow))
    ensures ConserveOk(TryQueueNext(s, t, s.clients[t].rec, canGrow))
  {
    var rec := s.clients[t].rec;
    match Enqueue(s.b, rec, canGrow).1
    case Enqueued(_) => EnqueuedConserves(s, t, rec, canGrow);
    case Dropped => DroppedConserves(s, t, rec, canGrow);
    case _ => HoldingConserves(s, TryQueueNext(s, t, rec, canGrow), t);
  }

  lemma ClientKeepsConserved(s: System, t: nat, c: ClientAction)
    requires ConserveOk(s) && ClientEnabled(s, t, c)
    ensures ConserveOk(ClientNext(s, t, c))
  {
    var s', pc := ClientNext(s, t, c), s.clients[t];
    ClientFrame(s, t, c);
    match c
    case Submit(level) => SubmitConserves(s, s', t, Rec(t, |s.submitted[t]|, level));
    case WriteDirect =>
      DirectPlaces(s, s', pc.rec);
      PlacingConserves(s, s', t, pc.rec);
    case TryQueue(canGrow) => TryQueueConserves(s, t, canGrow);
    case _ => HoldingConserves(s, s', t);
  }

  /** The record in a thread's hands is newer than everything of that thread that is anywhere. */
  lemma HeldIsNewest(s: System, t: nat, rec: Rec, x: Rec)
    requires ConserveOk(s) && t in s.clients && Held(s.clients[t]) == Some(rec)
    requires x in Log(s) && x.thread == rec.thread
    ensures x.index < rec.index
  {
    assert Places(s)[x] >= multiset(Log(s))[x] > 0 by {
      PlacesOfLog(s);
    }
    assert Submitted(s, x) && !InHand(s, x);
  }

  lemma NewestKeepsOrder(s: System, t: nat, rec: Rec)
    requires ConserveOk(s) && t in s.clients && Held(s.clients[t]) == Some(rec) && Ordered(Log(s))
    ensures Ordered(Log(s) + [rec])
  {
    var rs := Log(s) + [rec];
    forall i, j | 0 <= i < j < |rs| && rs[i].thread == rs[j].thread ensures rs[i].index < rs[j].index {
      if j == |Log(s)| {
        assert rs[i] == Log(s)[i];
        HeldIsNewest(s, t, rec, rs[i]);
      }
    }
  }

  lemma ClientKeepsDirect(s: System, t: nat, c: ClientAction)
    requires OrderOk(s) && ModesOk(s) && ClientEnabled(s, t, c)
    ensures var s' := ClientNext(s, t, c);
      forall u :: u in s'.clients && !s'.disturbed ==>
        (s'.clients[u].Waiting? ==> !s'.mode.Async?) && (s'.clients[u].Writes? ==> !s'.b.running)
  {
    ClientFrame(s, t, c);
  }

  lemma TryQueueKeepsOrder(s: System, t: nat, canGrow: bool)
    requires ConserveOk(s) && OrderOk(s) && ClientEnabled(s, t, TryQueue(canGrow)) && !s.disturbed
    ensures var s' := TryQueueNext(s, t, s.clients[t].rec, canGrow);
      0 <= Handled(s') <= |s'.numbered| && Ordered(Log(s'))
  {
    var rec := s.clients[t].rec;
    if Enqueue(s.b, rec, canGrow).1.Enqueued? {
      QueueingPlaces(s, TryQueueNext(s, t, rec, canGrow), rec);
      NewestKeepsOrder(s, t, rec);
    } else {
      SameLog(s, TryQueueNext(s, t, rec, canGrow));
    }
  }

  lemma DirectKeepsOrder(s: System, t: nat)
    requires NumbersOk(s) && ModesOk(s) && ConserveOk(s) && OrderOk(s) && ClientEnabled(s, t, WriteDirect) && !s.disturbed
    ensures var s' := ClientNext(s, t, WriteDirect);
      0 <= Handled(s') <= |s'.numbered| && Ordered(Log(s'))
  {
    DirectLog(s, ClientNext(s, t, WriteDirect), s.clients[t].rec);
    NewestKeepsOrder(s, t, s.clients[t].rec);
  }

  lemma ClientKeepsOrder(s: System, t: nat, c: ClientAction)
    requires NumbersOk(s) && ModesOk(s) && ConserveOk(s) && OrderOk(s) && ClientEnabled(s, t, c)
    ensures OrderOk(ClientNext(s, t, c))
  {
    ClientFrame(s, t, c);
    ClientKeepsDirect(s, t, c);
    if !ClientNext(s, t, c).disturbed {
      if c.WriteDirect? {
        DirectKeepsOrder(s, t);
      } else if c.TryQueue? {
        TryQueueKeepsOrder(s, t, c.canGrow);
      } else {
        PassiveFrame(s, t, c);
      }
    }
  }

  lemma WriterKeepsOrder(s: System, w: WriterAction)
    requires NumbersOk(s) && ModesOk(s) && OrderOk(s) && WriterEnabled(s, w)
    requires 0 <= Handled(WriterNext(s, w)) <= |s.numbered|
    ensures OrderOk(WriterNext(s, w))
  {
    WriterKeepsLog(s, w);
  }

  // ---------------------------------------------------------------- whole runs

  lemma ClientKeepsInv(s: System, t: nat, c: ClientAction)
    requires Inv(s) && ClientEnabled(s, t, c)
    ensures Inv(ClientNext(s, t, c))
  {
    ClientKeepsNumbers(s, t, c);
    ClientKeepsModes(s, t, c);
    ClientKeepsSink(s, t, c);
    ClientKeepsBatch(s, t, c);
    ClientKeepsDrops(s, t, c);
    ClientKeepsErrors(s, t, c);
    ClientKeepsConserved(s, t, c);
    ClientKeepsOrder(s, t, c);
    KeepsFlushers(s, Client(t, c));
  }

  lemma WriterKeepsInv(s: System, w: WriterAction)
    requires Inv(s) && WriterEnabled(s, w)
    ensures Inv(WriterNext(s, w))
  {
    WriterKeepsNumbers(s, w);
    WriterKeepsModes(s, w);
    WriterKeepsSink(s, w);
    WriterKeepsBatch(s, w);
    WriterKeepsDrops(s, w);
    WriterKeepsErrors(s, w);
    WriterKeepsLog(s, w);
    WriterKeepsOrder(s, w);
    SameLogConserves(s, WriterNext(s, w));
    KeepsFlushers(s, Writer(w));
  }

  lemma SwitchKeepsInv(s: System, a: SwitchAction)
    requires Inv(s) && SwitchEnabled(s, a)
    ensures Inv(SwitchNext(s, a))
  {
    SwitchKeepsNumbers(s, a);
    SwitchKeepsModes(s, a);
    SwitchKeepsSink(s, a);
    SwitchKeepsDrops(s, a);
    SwitchKeepsErrors(s, a);
    SwitchKeepsConserved(s, a);
    KeepsFlushers(s, Switch(a));
  }

  lemma StepKeepsInv(s: System, l: Label)
    requires Inv(s) && Enabled(s, l)
    ensures Inv(Next(s, l))
  {
    match l
    case Client(t, c) => ClientKeepsInv(s, t, c);
    case Writer(w) => WriterKeepsInv(s, w);
    case Switch(a) => SwitchKeepsInv(s, a);
  }

  lemma InitInv(s: System)
    requires Init(s)
    ensures Inv(s)
  {
  }

  lemma {:induction false} RunInv(trace: seq<System>, labels: seq<Label>, i: nat)
    requires IsRun(trace, labels) && Init(trace[0]) && i < |trace|
    ensures Inv(trace[i])
  {
    if i == 0 {
      InitInv(trace[0]);
    } else {
      RunInv(trace, labels, i - 1);
      assert Enabled(trace[i - 1], labels[i - 1]) && trace[i] == Next(trace[i - 1], labels[i - 1]);
      StepKeepsInv(trace[i - 1], labels[i - 1]);
    }
  }

  /** The batch in flight and the front buffer hold exactly the numbers after the last one that is
  published, or, when a batch has been written and waits to be published, after the last of that. */
  lemma BuffersAreConsecutive(trace: seq<System>, labels: seq<Label>, i: nat)
    requires IsRun(trace, labels) && Init(trace[0]) && i < |trace|
    ensures var s := trace[i];
      var b := s.b;
      var from := if s.writer.Finishing? then s.writer.batch.lastSeq else b.flushedSeq;
      && |b.front| <= b.capacity
      && (s.writer.Finishing? ==> b.back == [])
      && |b.back + b.front| == b.enqueuedSeq - from
      && forall k :: 0 <= k < |b.back + b.front| ==> (b.back + b.front)[k].seqNo == from + k + 1
  {
    RunInv(trace, labels, i);
  }

  /** Queued records are handed to the sinks exactly once, in the order of their numbers; when the
  writer has gone, all of them have been. */
  lemma QueuedOnceInOrder(trace: seq<System>, labels: seq<Label>, i: nat)
    requires IsRun(trace, labels) && Init(trace[0]) && i < |trace|
    ensures QueuedRecs(trace[i].sink) <= trace[i].numbered
    ensures trace[i].writer.Exited? ==> QueuedRecs(trace[i].sink) == trace[i].numbered
  {
    RunInv(trace, labels, i);
    var s := trace[i];
    if s.writer.Exited? {
      assert s.numbered[..|s.numbered|] == s.numbered;
    }
  }

  /** Whatever the timing of the switch: once the writer has gone, a record that its thread is done
  with is in the sinks exactly once, by way of the queue or directly, or it is a dropped TRACE. */
  lemma NothingLostOrDoubled(trace: seq<System>, labels: seq<Label>, i: nat, r: Rec)
    requires IsRun(trace, labels) && Init(trace[0]) && i < |trace| && trace[i].writer.Exited?
    ensures multiset(SinkRecs(trace[i].sink))[r] + multiset(trace[i].dropped)[r] ==
              if Submitted(trace[i], r) && !InHand(trace[i], r) then 1 else 0
    ensures !r.level.Trace? ==> r !in trace[i].dropped
  {
    RunInv(trace, labels, i);
    var s := trace[i];
    assert s.numbered[Handled(s)..] == [];
    assert Places(s)[r] == if Submitted(s, r) && !InHand(s, r) then 1 else 0;
  }

  /** When the buffers are released, there is nothing in them and nothing to mark as written. */
  lemma ReleaseDiscardsNothing(trace: seq<System>, labels: seq<Label>, i: nat)
    requires IsRun(trace, labels) && Init(trace[0]) && i < |labels| && labels[i] == Switch(ResetBackend)
    ensures trace[i + 1].b == trace[i].b && trace[i].b.front == trace[i].b.back == []
  {
    RunInv(trace, labels, i);
    assert Enabled(trace[i], labels[i]) && trace[i + 1] == Next(trace[i], labels[i]);
    ResetIsNothing(trace[i]);
  }

  /** No wait for the end of draining timed out and no buffer failed to grow. */
  ghost predicate Undisturbed(labels: seq<Label>) {
    forall k :: 0 <= k < |labels| && labels[k].Client? ==>
      !labels[k].c.DrainTimeout? && (labels[k].c.TryQueue? ==> labels[k].c.canGrow)
  }

  lemma {:induction false} UndisturbedState(trace: seq<System>, labels: seq<Label>, i: nat)
    requires IsRun(trace, labels) && Init(trace[0]) && Undisturbed(labels) && i < |trace|
    ensures !trace[i].disturbed
  {
    if i > 0 {
      UndisturbedState(trace, labels, i - 1);
      assert Enabled(trace[i - 1], labels[i - 1]) && trace[i] == Next(trace[i - 1], labels[i - 1]);
    }
  }

  /** Each thread's records reach the sinks in the order in which it submitted them, through every
  interleaving with the switch. */
  lemma ThreadOrderKept(trace: seq<System>, labels: seq<Label>, i: nat)
    requires IsRun(trace, labels) && Init(trace[0]) && Undisturbed(labels) && i < |trace|
    ensures Ordered(SinkRecs(trace[i].sink))
  {
    RunInv(trace, labels, i);
    UndisturbedState(trace, labels, i);
    var rs := SinkRecs(trace[i].sink);
    forall a, b | 0 <= a < b < |rs| && rs[a].thread == rs[b].thread ensures rs[a].index < rs[b].index {
      assert rs[a] == Log(trace[i])[a] && rs[b] == Log(trace[i])[b];
    }
  }

  /** What a direct write does to the log: the record comes before everything still queued. */
  lemma DirectGoesBefore(s: System, t: nat)
    requires Inv(s) && ClientEnabled(s, t, WriteDirect)
    ensures 0 <= Handled(ClientNext(s, t, WriteDirect)) <= |ClientNext(s, t, WriteDirect).numbered|
    ensures Log(ClientNext(s, t, WriteDirect)) == SinkRecs(s.sink) + [s.clients[t].rec] + s.numbered[Handled(s)..]
  {
    DirectAppend(s.sink, s.clients[t].rec);
  }

  lemma InsertedPair(before: seq<Rec>, rec: Rec, rest: seq<Rec>, i: nat, j: nat)
    requires Ordered(before + rest)
    requires forall x :: x in before && x.thread == rec.thread ==> x.index < rec.index
    requires forall k :: 0 <= k < |rest| ==> rest[k].thread != rec.thread
    requires i < j < |before| + 1 + |rest|
    requires (before + [rec] + rest)[i].thread == (before + [rec] + rest)[j].thread
    ensures (before + [rec] + rest)[i].index < (before + [rec] + rest)[j].index
  {
    var n := |before|;
    if j == n {
      assert before[i] in before;
    } else if i != n {
      assert (before + [rec] + rest)[i] == (before + rest)[if i < n then i else i - 1];
      assert (before + [rec] + rest)[j] == (before + rest)[if j < n then j else j - 1];
    }
  }

  /** A sequence into which a newer record of some thread is inserted is in order exactly if it was and
  no record of that thread follows. */
  lemma InsertKeepsOrderIff(before: seq<Rec>, rec: Rec, rest: seq<Rec>)
    requires forall x :: x in before + rest && x.thread == rec.thread ==> x.index < rec.index
    ensures Ordered(before + [rec] + rest) <==>
            Ordered(before + rest) && forall k :: 0 <= k < |rest| ==> rest[k].thread != rec.thread
  {
    var long := before + [rec] + rest;
    if Ordered(before + rest) && forall k :: 0 <= k < |rest| ==> rest[k].thread != rec.thread {
      forall i, j | 0 <= i < j < |long| && long[i].thread == long[j].thread ensures long[i].index < long[j].index {
        InsertedPair(before, rec, rest, i, j);
      }
    }
    if Ordered(long) {
      RemoveKeepsOrder(before, rec, rest);
      forall k | 0 <= k < |rest| ensures rest[k].thread != rec.thread {
        assert rest[k] in before + rest by { assert (before + rest)[|before| + k] == rest[k]; }
        assert long[|before|] == rec && long[|before| + 1 + k] == rest[k];
      }
    }
  }

  lemma RemoveKeepsOrder(before: seq<Rec>, rec: Rec, rest: seq<Rec>)
    requires Ordered(before + [rec] + rest)
    ensures Ordered(before + rest)
  {
    var long, short := before + [rec] + rest, before + rest;
    forall i, j | 0 <= i < j < |short| && short[i].thread == short[j].thread ensures short[i].index < short[j].index {
      var i', j' := if i < |before| then i else i + 1, if j < |before| then j else j + 1;
      assert long[i'] == short[i] && long[j'] == short[j];
    }
  }

  /** The step is a direct write of a thread that has a record in the queue. */
  ghost predicate Overtakes(s: System, l: Label) {
    && l.Client? && l.c.WriteDirect?
    && exists k :: Handled(s) <= k < |s.numbered| && 0 <= k && s.numbered[k].thread == l.t
  }

  lemma DirectOrderIff(s: System, t: nat)
    requires Inv(s) && ClientEnabled(s, t, WriteDirect)
    ensures 0 <= Handled(ClientNext(s, t, WriteDirect)) <= |ClientNext(s, t, WriteDirect).numbered|
    ensures Ordered(Log(ClientNext(s, t, WriteDirect))) <==> Ordered(Log(s)) && !Overtakes(s, Client(t, WriteDirect))
  {
    DirectGoesBefore(s, t);
    InsertedIff(s, t, s.clients[t].rec);
  }

  lemma InsertedIff(s: System, t: nat, rec: Rec)
    requires ConserveOk(s) && t in s.clients && Held(s.clients[t]) == Some(rec)
    ensures Ordered(SinkRecs(s.sink) + [rec] + s.numbered[Handled(s)..]) <==>
            Ordered(Log(s)) && !Overtakes(s, Client(t, WriteDirect))
  {
    var rest := s.numbered[Handled(s)..];
    forall x | x in SinkRecs(s.sink) + rest && x.thread == rec.thread ensures x.index < rec.index {
      HeldIsNewest(s, t, rec, x);
    }
    InsertKeepsOrderIff(SinkRecs(s.sink), rec, rest);
    HeldIsOwn(s, t);
    assert forall k :: 0 <= k < |rest| ==> rest[k] == s.numbered[Handled(s) + k];
    assert forall k :: Handled(s) <= k < |s.numbered| ==> s.numbered[k] == rest[k - Handled(s)];
  }

  lemma HeldIsOwn(s: System, t: nat)
    requires HandsOk(s) && t in s.clients && Held(s.clients[t]).Some?
    ensures Held(s.clients[t]).value.thread == t
  {
  }

  lemma AppendKeepsOrderIff(s: System, t: nat, rec: Rec)
    requires ConserveOk(s) && t in s.clients && Held(s.clients[t]) == Some(rec)
    ensures Ordered(Log(s) + [rec]) <==> Ordered(Log(s))
  {
    if Ordered(Log(s)) { NewestKeepsOrder(s, t, rec); }
    if Ordered(Log(s) + [rec]) {
      assert Log(s) + [rec] == Log(s) + [rec] + [] && Log(s) == Log(s) + [];
      RemoveKeepsOrder(Log(s), rec, []);
    }
  }

  lemma SameLog(s: System, s': System)
    requires 0 <= Handled(s) <= |s.numbered|
    requires s'.sink == s.sink && s'.numbered == s.numbered && s'.writer == s.writer && s'.b.flushedSeq == s.b.flushedSeq
    ensures 0 <= Handled(s') <= |s'.numbered| && Log(s') == Log(s)
  {
  }

  lemma TryQueueOrderIff(s: System, t: nat, canGrow: bool)
    requires ConserveOk(s) && ClientEnabled(s, t, TryQueue(canGrow))
    ensures var s' := TryQueueNext(s, t, s.clients[t].rec, canGrow);
      0 <= Handled(s') <= |s'.numbered| && (Ordered(Log(s')) <==> Ordered(Log(s)))
  {
    var rec := s.clients[t].rec;
    if Enqueue(s.b, rec, canGrow).1.Enqueued? {
      QueueingPlaces(s, TryQueueNext(s, t, rec, canGrow), rec);
      AppendKeepsOrderIff(s, t, rec);
    } else {
      SameLog(s, TryQueueNext(s, t, rec, canGrow));
    }
  }

  lemma ClientOrderIff(s: System, t: nat, c: ClientAction)
    requires Inv(s) && ClientEnabled(s, t, c)
    ensures var s' := ClientNext(s, t, c);
      0 <= Handled(s') <= |s'.numbered| && (Ordered(Log(s')) <==> Ordered(Log(s)) && !Overtakes(s, Client(t, c)))
  {
    if c.WriteDirect? {
      DirectOrderIff(s, t);
    } else if c.TryQueue? {
      TryQueueOrderIff(s, t, c.canGrow);
    } else {
      PassiveFrame(s, t, c);
      SameLog(s, ClientNext(s, t, c));
    }
  }

  lemma StepOrderIff(s: System, l: Label)
    requires Inv(s) && Enabled(s, l) && Inv(Next(s, l))
    ensures Ordered(Log(Next(s, l))) <==> Ordered(Log(s)) && !Overtakes(s, l)
  {
    match l
    case Client(t, c) => ClientOrderIff(s, t, c);
    case Writer(w) => WriterKeepsLog(s, w);
    case Switch(a) => SwitchFrame(s, a);
  }

  /** Each thread's records are in the order of submission, in the sinks and in the queue behind them. */
  ghost predicate InOrder(s: System) {
    0 <= Handled(s) <= |s.numbered| && Ordered(Log(s))
  }

  lemma RunStepOrderIff(trace: seq<System>, labels: seq<Label>, j: nat)
    requires IsRun(trace, labels) && Init(trace[0]) && j < |labels|
    ensures InOrder(trace[j + 1]) <==> InOrder(trace[j]) && !Overtakes(trace[j], labels[j])
  {
    assert Enabled(trace[j], labels[j]) && trace[j + 1] == Next(trace[j], labels[j]);
    RunInv(trace, labels, j);
    StepKeepsInv(trace[j], labels[j]);
    StepOrderIff(trace[j], labels[j]);
  }

  lemma {:induction false} OrderIff(trace: seq<System>, labels: seq<Label>, i: nat)
    requires |trace| == |labels| + 1 && i < |trace| && InOrder(trace[0])
    requires forall j :: 0 <= j < |labels| ==>
      (InOrder(trace[j + 1]) <==> InOrder(trace[j]) && !Overtakes(trace[j], labels[j]))
    ensures InOrder(trace[i]) <==> forall j :: 0 <= j < i ==> !Overtakes(trace[j], labels[j])
  {
    if i > 0 {
      OrderIff(trace, labels, i - 1);
      assert InOrder(trace[i - 1 + 1]) <==> InOrder(trace[i - 1]) && !Overtakes(trace[i - 1], labels[i - 1]);
    }
  }

  /** Exactly when order is kept, over whole runs, timeouts and failed allocations included: if and only
  if no thread ever wrote directly while it had a record in the queue. */
  lemma OrderKeptIff(trace: seq<System>, labels: seq<Label>, i: nat)
    requires IsRun(trace, labels) && Init(trace[0]) && i < |trace|
    ensures InOrder(trace[i]) <==> forall j :: 0 <= j < i ==> !Overtakes(trace[j], labels[j])
  {
    forall j | 0 <= j < |labels|
      ensures InOrder(trace[j + 1]) <==> InOrder(trace[j]) && !Overtakes(trace[j], labels[j])
    {
      RunStepOrderIff(trace, labels, j);
    }
    OrderIff(trace, labels, i);
  }

  /** When the writer has gone, this is the order in the sinks. */
  lemma SinkOrderIff(trace: seq<System>, labels: seq<Label>, i: nat)
    requires IsRun(trace, labels) && Init(trace[0]) && i < |trace| && trace[i].writer.Exited?
    ensures Ordered(SinkRecs(trace[i].sink)) <==> forall j :: 0 <= j < i ==> !Overtakes(trace[j], labels[j])
  {
    OrderKeptIff(trace, labels, i);
    RunInv(trace, labels, i);
    assert Log(trace[i]) == SinkRecs(trace[i].sink);
  }

  // ---------------------------------------------------------------- a run in which order fails

  /** A thread queues a record, the mode switches, the thread's wait for the end of draining times out,
  and its next record is written before the queued one. */
  function OvertakingSteps(t: nat): seq<Label> {
    [Client(t, Submit(Info)), Client(t, TryQueue(true)), Switch(Claim), Client(t, Submit(Info)),
     Client(t, DrainTimeout), Client(t, WriteDirect), Writer(Take), Writer(LockSink), Writer(WriteOne)]
  }

  /** A system like `s` with `t` as its only thread. */
  function Lone(t: nat, pc: ClientPc, submitted: seq<Rec>, s: System): System {
    s.(clients := map[t := pc], submitted := map[t := submitted])
  }

  function OvertakingStates(t: nat): seq<System> {
    var first, second := Rec(t, 0, Info), Rec(t, 1, Info);
    var one, both, stamped, batch := [first], [first, second], Stamped(1, first), Batch(false, 0, 1);
    var b0 := System(Started(1), Async, Polling, NotStarted, map[], [], 0, 0, map[], [], [], false);
    var b1 := b0.(b := Append(b0.b, first), numbered := b0.numbered + [first]);
    var b2 := b1.(mode := Draining, switcher := Claimed);
    var b3 := b2.(disturbed := true);
    var b4 := b3.(sink := [Direct(second)], flushed := 1);
    var b5 := b4.(b := Started(1).(back := [stamped], enqueuedSeq := 1), writer := Taken(batch));
    var b6 := b5.(writer := Writing(batch, 1, 0));
    var b7 := b6.(writer := Writing(batch, 1, 1), sink := [Direct(second), Queued(stamped)]);
    [Lone(t, Idle, [], b0), Lone(t, Got(first), one, b0), Lone(t, Idle, one, b1), Lone(t, Idle, one, b2),
     Lone(t, Waiting(second), both, b2), Lone(t, Writes(second), both, b3), Lone(t, Idle, both, b4),
     Lone(t, Idle, both, b5), Lone(t, Idle, both, b6), Lone(t, Idle, both, b7)]
  }

  lemma LoneSubmits(s: System, t: nat, submitted: seq<Rec>, level: Level)
    ensures var rec := Rec(t, |submitted|, level);
      var s' := Lone(t, Idle, submitted, s);
      && ClientEnabled(s', t, Submit(level))
      && ClientNext(s', t, Submit(level))
           == Lone(t, if s.mode.Async? then Got(rec) else Waiting(rec), submitted + [rec], s)
  {
    var rec := Rec(t, |submitted|, level);
    assert map[t := submitted][t := submitted + [rec]] == map[t := submitted + [rec]];
    var pc := if s.mode.Async? then Got(rec) else Waiting(rec);
    assert map[t := Idle][t := pc] == map[t := pc];
  }

  lemma LoneQueues(s: System, t: nat, rec: Rec, submitted: seq<Rec>)
    requires s.b.running && !Full(s.b) && !rec.level.Error?
    ensures var s' := Lone(t, Got(rec), submitted, s);
      && ClientEnabled(s', t, TryQueue(true))
      && ClientNext(s', t, TryQueue(true))
           == Lone(t, Idle, submitted, s.(b := Append(s.b, rec), numbered := s.numbered + [rec]))
  {
    assert map[t := Got(rec)][t := Idle] == map[t := Idle];
  }

  lemma LoneTimesOut(s: System, t: nat, rec: Rec, submitted: seq<Rec>)
    requires s.mode.Draining?
    ensures var s' := Lone(t, Waiting(rec), submitted, s);
      && ClientEnabled(s', t, DrainTimeout)
      && ClientNext(s', t, DrainTimeout) == Lone(t, Writes(rec), submitted, s.(disturbed := true))
  {
    assert map[t := Waiting(rec)][t := Writes(rec)] == map[t := Writes(rec)];
  }

  lemma LoneWrites(s: System, t: nat, rec: Rec, submitted: seq<Rec>)
    requires !s.writer.Writing? && !rec.level.Error?
    ensures var s' := Lone(t, Writes(rec), submitted, s);
      && ClientEnabled(s', t, WriteDirect)
      && ClientNext(s', t, WriteDirect)
           == Lone(t, Idle, submitted, s.(sink := s.sink + [Direct(rec)], flushed := |s.sink| + 1))
  {
    assert map[t := Writes(rec)][t := Idle] == map[t := Idle];
  }

  ghost predicate StepAt(trace: seq<System>, labels: seq<Label>, k: nat) {
    k < |labels| && k + 1 < |trace| && Enabled(trace[k], labels[k]) && trace[k + 1] == Next(trace[k], labels[k])
  }

  lemma RunFromSteps(trace: seq<System>, labels: seq<Label>)
    requires |trace| == |labels| + 1 && forall k :: 0 <= k < |labels| ==> StepAt(trace, labels, k)
    ensures IsRun(trace, labels)
  {
    forall k | 0 <= k < |labels| ensures Enabled(trace[k], labels[k]) && trace[k + 1] == Next(trace[k], labels[k]) {
      assert StepAt(trace, labels, k);
    }
  }

  ghost predicate OvertakingStep(t: nat, k: nat) {
    StepAt(OvertakingStates(t), OvertakingSteps(t), k)
  }

  lemma NineSteps(trace: seq<System>, labels: seq<Label>)
    requires |trace| == 10 && |labels| == 9
    requires StepAt(trace, labels, 0) && StepAt(trace, labels, 1) && StepAt(trace, labels, 2)
    requires StepAt(trace, labels, 3) && StepAt(trace, labels, 4) && StepAt(trace, labels, 5)
    requires StepAt(trace, labels, 6) && StepAt(trace, labels, 7) && StepAt(trace, labels, 8)
    ensures IsRun(trace, labels)
  {
    forall k | 0 <= k < 9 ensures StepAt(trace, labels, k) {
      assert k == 0 || k == 1 || k == 2 || k == 3 || k == 4 || k == 5 || k == 6 || k == 7 || k == 8;
    }
    RunFromSteps(trace, labels);
  }

  lemma StepFrom(trace: seq<System>, labels: seq<Label>, k: nat, s: System, s': System, t: nat, c: ClientAction)
    requires k < |labels| && k + 1 < |trace| && labels[k] == Client(t, c)
    requires trace[k] == s && ClientEnabled(s, t, c) && ClientNext(s, t, c) == s' && trace[k + 1] == s'
    ensures StepAt(trace, labels, k)
  {
  }

  lemma OvertakingSubmits(t: nat)
    ensures OvertakingStep(t, 0)
  {
    LoneSubmits(OvertakingStates(t)[0], t, [], Info);
    assert [] + [Rec(t, 0, Info)] == [Rec(t, 0, Info)];
  }

  lemma OvertakingQueues(t: nat)
    ensures OvertakingStep(t, 1)
  {
    var s, first := OvertakingStates(t), Rec(t, 0, Info);
    LoneQueues(s[1], t, first, [first]);
    StepFrom(s, OvertakingSteps(t), 1, Lone(t, Got(first), [first], s[1]),
      Lone(t, Idle, [first], s[1].(b := Append(s[1].b, first), numbered := s[1].numbered + [first])), t, TryQueue(true));
  }

  lemma OvertakingSwitches(t: nat)
    ensures OvertakingStep(t, 2)
  {
  }

  lemma OvertakingSecond(t: nat)
    ensures OvertakingStep(t, 3) && OvertakingStep(t, 4) && OvertakingStep(t, 5)
  {
    var s, first, second := OvertakingStates(t), Rec(t, 0, Info), Rec(t, 1, Info);
    LoneSubmits(s[3], t, [first], Info);
    LoneTimesOut(s[4], t, second, [first, second]);
    LoneWrites(s[5], t, second, [first, second]);
    assert [first] + [second] == [first, second] && [] + [Direct(second)] == [Direct(second)];
  }

  lemma OvertakingTakes(t: nat)
    ensures OvertakingStep(t, 6) && OvertakingStep(t, 7)
  {
    var first := Rec(t, 0, Info);
    assert [] + [Stamped(1, first)] == [Stamped(1, first)];
  }

  lemma OvertakingEnds(t: nat)
    ensures OvertakingStep(t, 8)
  {
    var first, second := Rec(t, 0, Info), Rec(t, 1, Info);
    assert [Direct(second)] + [Queued(Stamped(1, first))] == [Direct(second), Queued(Stamped(1, first))];
  }

  lemma OvertakingStarts(t: nat)
    ensures Init(OvertakingStates(t)[0])
    ensures OvertakingStates(t)[9].sink == [Direct(Rec(t, 1, Info)), Queued(Stamped(1, Rec(t, 0, Info)))]
  {
  }

  lemma OvertakingRuns(t: nat)
    ensures IsRun(OvertakingStates(t), OvertakingSteps(t))
  {
    OvertakingSubmits(t);
    OvertakingQueues(t);
    OvertakingSwitches(t);
    OvertakingSecond(t);
    OvertakingTakes(t);
    OvertakingEnds(t);
    NineSteps(OvertakingStates(t), OvertakingSteps(t));
  }

  /** The order of a thread's records in the sinks does fail when its wait times out. */
  lemma OrderCanFail(t: nat) returns (trace: seq<System>, labels: seq<Label>)
    ensures IsRun(trace, labels) && Init(trace[0]) && labels == OvertakingSteps(t)
    ensures !Ordered(SinkRecs(trace[|labels|].sink))
  {
    trace, labels := OvertakingStates(t), OvertakingSteps(t);
    OvertakingRuns(t);
    OvertakingStarts(t);
    OvertakingSink(Rec(t, 1, Info), Stamped(1, Rec(t, 0, Info)));
  }

  lemma OvertakingSink(second: Rec, stamped: Stamped)
    requires second.thread == stamped.rec.thread && second.index > stamped.rec.index
    ensures !Ordered(SinkRecs([Direct(second), Queued(stamped)]))
  {
    TwoEntries(second, stamped);
    var rs := SinkRecs([Direct(second), Queued(stamped)]);
    assert rs[0] == second && rs[1] == stamped.rec;
  }

  lemma TwoEntries(second: Rec, stamped: Stamped)
    ensures SinkRecs([Direct(second), Queued(stamped)]) == [second, stamped.rec]
  {
    var two, one, none := [Direct(second), Queued(stamped)], [Direct(second)], [];
    assert two[..1] == one && one[..0] == none;
    assert SinkRecs(none) == [] && SinkRecs(one) == SinkRecs(none) + [second];
    assert SinkRecs(two) == SinkRecs(one) + [stamped.rec];
  }

  /** Drops go unreported only while the front buffer is full, so the notes account for every dropped
  record by the time the writer goes. */
  lemma DropsReported(trace: seq<System>, labels: seq<Label>, i: nat)
    requires IsRun(trace, labels) && Init(trace[0]) && i < |trace|
    ensures trace[i].b.droppedTotal != trace[i].b.droppedReported ==> Full(trace[i].b)
    ensures trace[i].writer.Exited? ==> NoteSum(trace[i].sink) == trace[i].b.droppedTotal == |trace[i].dropped|
  {
    RunInv(trace, labels, i);
  }

  /** A wait for a number that ends without timing out ends after every record up to that number was
  handed to the sinks and flushed, and every ERROR among the flushed entries is on disk. */
  lemma FlushedMeansWritten(trace: seq<System>, labels: seq<Label>, i: nat, t: nat)
    requires IsRun(trace, labels) && Init(trace[0]) && i < |trace|
    requires ClientEnabled(trace[i], t, FlushDone)
    ensures var s, n := trace[i], trace[i].clients[t].seqNo;
      && n <= |s.numbered| && s.durable <= s.flushed <= |s.sink|
      && s.numbered[..n] <= QueuedRecs(s.sink[..s.flushed])
      && forall k :: 0 <= k < s.flushed && IsError(s.sink[k]) ==> k < s.durable
  {
    RunInv(trace, labels, i);
    var s := trace[i];
    if !s.writer.Writing? {
      assert s.sink[..s.flushed] == s.sink;
    }
  }

  lemma NumberedStep(s: System, l: Label)
    requires Enabled(s, l)
    ensures s.numbered <= Next(s, l).numbered
  {
    if l.Client? { ClientFrame(s, l.t, l.c); }
  }

  lemma {:induction false} QueuedRecIsEntry(sink: seq<Entry>, r: Rec) returns (k: nat)
    requires r in QueuedRecs(sink)
    ensures k < |sink| && sink[k].Queued? && sink[k].stamped.rec == r
  {
    var last := sink[|sink| - 1];
    if r in Part(last) {
      k := |sink| - 1;
    } else {
      k := QueuedRecIsEntry(sink[..|sink| - 1], r);
    }
  }
}
