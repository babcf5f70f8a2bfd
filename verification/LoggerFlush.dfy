/** What a thread may rely on when a flush or the submission of an ERROR has returned, over whole runs and
in terms of the records, and which records go which way. */
module LoggerFlush {
  import opened Options
  import opened LogBackend
  import opened LoggerProtocol

  // ---------------------------------------------------------------- sinks only grow

  lemma {:induction false} QueuedRecsPrefix(a: seq<Entry>, b: seq<Entry>)
    requires a <= b
    ensures QueuedRecs(a) <= QueuedRecs(b)
    decreases |b|
  {
    if |a| < |b| {
      QueuedRecsPrefix(a, b[..|b| - 1]);
    } else {
      assert a == b;
    }
  }

  lemma SinkGrows(s: System, l: Label)
    requires Inv(s) && Enabled(s, l)
    ensures s.sink <= Next(s, l).sink
    ensures s.flushed <= Next(s, l).flushed <= |Next(s, l).sink| && s.durable <= Next(s, l).durable
  {
    match l
    case Client(t, c) => ClientSinkGrows(s, t, c);
    case Writer(w) => WriterSinkGrows(s, w);
    case Switch(a) => SwitchFrame(s, a);
  }

  lemma ClientSinkGrows(s: System, t: nat, c: ClientAction)
    requires BatchOk(s) && ErrorsOk(s) && ClientEnabled(s, t, c)
    ensures var s' := ClientNext(s, t, c);
      s.sink <= s'.sink && s.flushed <= s'.flushed <= |s'.sink| && s.durable <= s'.durable
  {
    if c.TryQueue? {
      TryQueueFlushes(s, t, s.clients[t].rec, c.canGrow);
    } else if !c.WriteDirect? {
      PassiveFrame(s, t, c);
    }
  }

  lemma TryQueueFlushes(s: System, t: nat, rec: Rec, canGrow: bool)
    ensures var s' := TryQueueNext(s, t, rec, canGrow);
      s'.sink == s.sink && s'.flushed == s.flushed && s'.durable == s.durable
  {
  }

  lemma WriterSinkGrows(s: System, w: WriterAction)
    requires BatchOk(s) && ErrorsOk(s) && WriterEnabled(s, w)
    ensures var s' := WriterNext(s, w);
      s.sink <= s'.sink && s.flushed <= s'.flushed <= |s'.sink| && s.durable <= s'.durable
  {
  }

  /** The records of these entries have been pushed out of the process. */
  ghost predicate PushedOut(s: System, goal: seq<Rec>) {
    s.flushed <= |s.sink| && goal <= QueuedRecs(s.sink[..s.flushed])
  }

  lemma PushedOutStays(s: System, l: Label, goal: seq<Rec>)
    requires Inv(s) && Enabled(s, l) && PushedOut(s, goal)
    ensures PushedOut(Next(s, l), goal)
  {
    SinkGrows(s, l);
    QueuedRecsPrefix(s.sink[..s.flushed], Next(s, l).sink[..Next(s, l).flushed]);
  }

  /** A wait that is over without running out has its records pushed out. */
  lemma WaitOver(s: System, t: nat)
    requires Inv(s) && ClientEnabled(s, t, FlushDone)
    ensures s.clients[t].seqNo <= |s.numbered| && PushedOut(s, s.numbered[..s.clients[t].seqNo])
    ensures forall k :: 0 <= k < s.flushed && IsError(s.sink[k]) ==> k < s.durable
  {
    if !s.writer.Writing? {
      assert s.sink[..s.flushed] == s.sink;
    }
  }

  lemma OthersStay(s: System, l: Label, t: nat)
    requires Inv(s) && Enabled(s, l) && t in s.clients && !(l.Client? && l.t == t)
    ensures t in Next(s, l).clients && Next(s, l).clients[t] == s.clients[t] && s.numbered <= Next(s, l).numbered
  {
    match l
    case Client(u, c) => OtherClient(s, u, c, t);
    case Writer(w) => WriterLeavesThreads(s, w);
    case Switch(a) => SwitchFrame(s, a);
  }

  lemma OtherClient(s: System, u: nat, c: ClientAction, t: nat)
    requires ClientEnabled(s, u, c) && t in s.clients && u != t
    ensures var s' := ClientNext(s, u, c);
      t in s'.clients && s'.clients[t] == s.clients[t] && s.numbered <= s'.numbered
  {
    if c.TryQueue? { QueuedHeld(s, u, s.clients[u].rec, c.canGrow); }
  }

  // ---------------------------------------------------------------- an explicit flush

  /** A flush that is to cover the records `goal` is under way. */
  ghost predicate Covering(s: System, t: nat, goal: seq<Rec>) {
    && t in s.clients
    && match s.clients[t]
       case Aiming => goal <= s.numbered
       case Flushing(n, explicitly) => explicitly && |goal| <= n && goal <= s.numbered
       case Pausing => PushedOut(s, goal)
       case Pushing => PushedOut(s, goal)
       case _ => false
  }

  lemma CoveringByOthers(s: System, l: Label, t: nat, goal: seq<Rec>)
    requires Inv(s) && Enabled(s, l) && Covering(s, t, goal) && !(l.Client? && l.t == t)
    ensures Covering(Next(s, l), t, goal)
  {
    OthersStay(s, l, t);
    if s.clients[t].Pausing? || s.clients[t].Pushing? { PushedOutStays(s, l, goal); }
  }

  lemma CoveringByOwner(s: System, t: nat, c: ClientAction, goal: seq<Rec>)
    requires Inv(s) && ClientEnabled(s, t, c) && Covering(s, t, goal) && !c.FlushTimeout? && !c.PushFile?
    ensures Covering(ClientNext(s, t, c), t, goal)
  {
    PassiveFrame(s, t, c);
    if c.FlushDone? {
      WaitOver(s, t);
      PushedOutStays(s, Client(t, c), s.numbered[..s.clients[t].seqNo]);
    } else if s.clients[t].Pausing? {
      PushedOutStays(s, Client(t, c), goal);
    }
  }

  lemma CoveringStep(s: System, l: Label, t: nat, goal: seq<Rec>)
    requires Inv(s) && Enabled(s, l) && Covering(s, t, goal) && l != Client(t, FlushTimeout) && l != Client(t, PushFile)
    ensures Covering(Next(s, l), t, goal)
  {
    if l.Client? && l.t == t {
      CoveringByOwner(s, t, l.c, goal);
    } else {
      CoveringByOthers(s, l, t, goal);
    }
  }

  lemma CoveringRunStep(trace: seq<System>, labels: seq<Label>, j: nat, t: nat, goal: seq<Rec>)
    requires IsRun(trace, labels) && Init(trace[0]) && j < |labels| && Covering(trace[j], t, goal)
    requires labels[j] != Client(t, FlushTimeout) && labels[j] != Client(t, PushFile)
    ensures Covering(trace[j + 1], t, goal)
  {
    assert Enabled(trace[j], labels[j]) && trace[j + 1] == Next(trace[j], labels[j]);
    RunInv(trace, labels, j);
    CoveringStep(trace[j], labels[j], t, goal);
  }

  lemma CoveringStarts(trace: seq<System>, labels: seq<Label>, i: nat, t: nat)
    requires IsRun(trace, labels) && i < |labels| && labels[i] == Client(t, StartFlush) && trace[i].mode.Async?
    ensures Covering(trace[i + 1], t, trace[i].numbered)
  {
    assert Enabled(trace[i], labels[i]) && trace[i + 1] == Next(trace[i], labels[i]);
  }

  lemma {:induction false} CoveringHolds(trace: seq<System>, i: nat, k: nat, t: nat, goal: seq<Rec>)
    requires i < k < |trace| && Covering(trace[i + 1], t, goal)
    requires forall j :: i < j < k && Covering(trace[j], t, goal) ==> Covering(trace[j + 1], t, goal)
    ensures Covering(trace[k], t, goal)
    decreases k
  {
    if i + 1 < k {
      CoveringHolds(trace, i, k - 1, t, goal);
      assert Covering(trace[k - 1], t, goal) ==> Covering(trace[k - 1 + 1], t, goal);
    }
  }

  /** A flush that was called in mode Async, and whose wait has not run out, returns after every record that
  had been queued before the call was handed to the sinks and pushed out. */
  lemma FlushCovers(trace: seq<System>, labels: seq<Label>, i: nat, k: nat, t: nat)
    requires IsRun(trace, labels) && Init(trace[0]) && i < k < |labels|
    requires labels[i] == Client(t, StartFlush) && trace[i].mode.Async? && labels[k] == Client(t, PushFile)
    requires forall j :: i < j < k ==> labels[j] != Client(t, FlushTimeout) && labels[j] != Client(t, PushFile)
    ensures trace[k].flushed <= |trace[k].sink| && trace[i].numbered <= QueuedRecs(trace[k].sink[..trace[k].flushed])
    ensures trace[k + 1].flushed == |trace[k + 1].sink| && trace[k + 1].clients[t].Idle?
  {
    CoveringStarts(trace, labels, i, t);
    var goal := trace[i].numbered;
    forall j | i < j < k && Covering(trace[j], t, goal) ensures Covering(trace[j + 1], t, goal) {
      CoveringRunStep(trace, labels, j, t, goal);
    }
    CoveringHolds(trace, i, k, t, goal);
    PushFileEnds(trace, labels, k, t, goal);
  }

  lemma PushFileEnds(trace: seq<System>, labels: seq<Label>, k: nat, t: nat, goal: seq<Rec>)
    requires IsRun(trace, labels) && k < |labels| && labels[k] == Client(t, PushFile) && Covering(trace[k], t, goal)
    ensures PushedOut(trace[k], goal)
    ensures trace[k + 1].flushed == |trace[k + 1].sink| && t in trace[k + 1].clients && trace[k + 1].clients[t].Idle?
  {
    assert Enabled(trace[k], labels[k]) && trace[k + 1] == Next(trace[k], labels[k]);
  }

  ghost predicate InFlush(s: System, t: nat) {
    && t in s.clients
    && (s.clients[t].Aiming? || (s.clients[t].Flushing? && s.clients[t].explicitly) || s.clients[t].Pausing? || s.clients[t].Pushing?)
  }

  lemma InFlushStep(s: System, l: Label, t: nat)
    requires Inv(s) && Enabled(s, l) && (InFlush(s, t) || (t in s.clients && l == Client(t, StartFlush))) && l != Client(t, PushFile)
    ensures InFlush(Next(s, l), t)
  {
    if l.Client? && l.t == t {
      PassiveFrame(s, t, l.c);
    } else {
      OthersStay(s, l, t);
    }
  }

  lemma InFlushRunStep(trace: seq<System>, labels: seq<Label>, j: nat, t: nat)
    requires IsRun(trace, labels) && Init(trace[0]) && j < |labels| && labels[j] != Client(t, PushFile)
    requires InFlush(trace[j], t) || labels[j] == Client(t, StartFlush)
    ensures InFlush(trace[j + 1], t)
  {
    assert Enabled(trace[j], labels[j]) && trace[j + 1] == Next(trace[j], labels[j]);
    RunInv(trace, labels, j);
    InFlushStep(trace[j], labels[j], t);
  }

  lemma {:induction false} InFlushHolds(trace: seq<System>, i: nat, k: nat, t: nat)
    requires i < k < |trace| && InFlush(trace[i + 1], t)
    requires forall j :: i < j < k && InFlush(trace[j], t) ==> InFlush(trace[j + 1], t)
    ensures InFlush(trace[k], t)
    decreases k
  {
    if i + 1 < k {
      InFlushHolds(trace, i, k - 1, t);
      assert InFlush(trace[k - 1], t) ==> InFlush(trace[k - 1 + 1], t);
    }
  }

  /** A flush does not return before it has pushed the file out, whichever of its waits run out. */
  lemma FlushPushesFile(trace: seq<System>, labels: seq<Label>, i: nat, k: nat, t: nat)
    requires IsRun(trace, labels) && Init(trace[0]) && i < k < |trace| && labels[i] == Client(t, StartFlush)
    requires forall j :: i < j < k ==> labels[j] != Client(t, PushFile)
    ensures t in trace[k].clients && !trace[k].clients[t].Idle?
  {
    InFlushRunStep(trace, labels, i, t);
    forall j | i < j < k && InFlush(trace[j], t) ensures InFlush(trace[j + 1], t) {
      InFlushRunStep(trace, labels, j, t);
    }
    InFlushHolds(trace, i, k, t);
  }

  /** The switch is under way or over, and the thread is not past a wait for its end before that. */
  ghost predicate HeldBack(s: System, t: nat) {
    !s.mode.Async? && t in s.clients && (s.clients[t].Pushing? ==> s.mode.Sync?)
  }

  lemma HeldBackStep(s: System, l: Label, t: nat)
    requires Inv(s) && Enabled(s, l) && l != Client(t, PauseTimeout)
    requires HeldBack(s, t) || (t in s.clients && !s.mode.Async? && StartsWait(l, t))
    ensures HeldBack(Next(s, l), t)
  {
    match l
    case Client(u, c) =>
      ClientFrame(s, u, c);
      if u == t { HeldBackOwn(s, t, c); } else { OthersStay(s, l, t); }
    case Writer(w) => WriterLeavesThreads(s, w);
    case Switch(a) => HeldBackSwitch(s, a, t);
  }

  lemma HeldBackOwn(s: System, t: nat, c: ClientAction)
    requires ClientEnabled(s, t, c) && !c.PauseTimeout? && !s.mode.Async?
    requires HeldBack(s, t) || StartsWait(Client(t, c), t)
    ensures t in ClientNext(s, t, c).clients && (ClientNext(s, t, c).clients[t].Pushing? ==> s.mode.Sync?)
  {
  }

  lemma HeldBackSwitch(s: System, a: SwitchAction, t: nat)
    requires NumbersOk(s) && ModesOk(s) && SwitchEnabled(s, a) && HeldBack(s, t)
    ensures HeldBack(SwitchNext(s, a), t)
  {
    SwitchFrame(s, a);
  }

  /** A flush has begun, or is over waiting for its number. */
  predicate StartsWait(l: Label, t: nat) {
    l == Client(t, StartFlush) || l == Client(t, FlushDone) || l == Client(t, FlushTimeout)
  }

  lemma HeldBackRunStep(trace: seq<System>, labels: seq<Label>, j: nat, t: nat)
    requires IsRun(trace, labels) && Init(trace[0]) && j < |labels| && labels[j] != Client(t, PauseTimeout)
    requires HeldBack(trace[j], t) || (!trace[j].mode.Async? && StartsWait(labels[j], t))
    ensures HeldBack(trace[j + 1], t)
  {
    assert Enabled(trace[j], labels[j]) && trace[j + 1] == Next(trace[j], labels[j]);
    RunInv(trace, labels, j);
    HeldBackStep(trace[j], labels[j], t);
  }

  lemma {:induction false} HeldBackHolds(trace: seq<System>, i: nat, k: nat, t: nat)
    requires i < k < |trace| && HeldBack(trace[i + 1], t)
    requires forall j :: i < j < k && HeldBack(trace[j], t) ==> HeldBack(trace[j + 1], t)
    ensures HeldBack(trace[k], t)
    decreases k
  {
    if i + 1 < k {
      HeldBackHolds(trace, i, k - 1, t);
      assert HeldBack(trace[k - 1], t) ==> HeldBack(trace[k - 1 + 1], t);
    }
  }

  /** A flush that begins during or after the switch, or gets through its wait for a number then, pushes
  the file out only in mode Sync, when all queued records have been written and flushed; unless its wait
  for the switch runs out. */
  lemma FlushWaitsForSwitch(trace: seq<System>, labels: seq<Label>, i: nat, k: nat, t: nat)
    requires IsRun(trace, labels) && Init(trace[0]) && i < k < |labels|
    requires !trace[i].mode.Async? && StartsWait(labels[i], t) && labels[k] == Client(t, PushFile)
    requires forall j :: i < j < k ==> labels[j] != Client(t, PauseTimeout)
    ensures trace[k].mode.Sync? && QueuedRecs(trace[k].sink) == trace[k].numbered && trace[k].flushed == |trace[k].sink|
  {
    HeldBackRunStep(trace, labels, i, t);
    forall j | i < j < k && HeldBack(trace[j], t) ensures HeldBack(trace[j + 1], t) {
      HeldBackRunStep(trace, labels, j, t);
    }
    HeldBackHolds(trace, i, k, t);
    assert Enabled(trace[k], labels[k]);
    RunInv(trace, labels, k);
    QueuedOnceInOrder(trace, labels, k);
  }

  // ---------------------------------------------------------------- an ERROR

  /** The record is in the sinks, among the entries that are on disk. */
  ghost predicate OnDisk(s: System, rec: Rec) {
    exists k :: 0 <= k < s.durable && k < |s.sink| && s.sink[k].Queued? && s.sink[k].stamped.rec == rec
  }

  /** The thread waits for its own record, or has it on disk. */
  ghost predicate WaitsFor(s: System, t: nat, rec: Rec) {
    || OnDisk(s, rec)
    || (&& t in s.clients && s.clients[t].Flushing?
        && 0 < s.clients[t].seqNo <= |s.numbered| && s.numbered[s.clients[t].seqNo - 1] == rec)
  }

  lemma OnDiskStays(s: System, l: Label, rec: Rec)
    requires Inv(s) && Enabled(s, l) && OnDisk(s, rec)
    ensures OnDisk(Next(s, l), rec)
  {
    SinkGrows(s, l);
    var k :| 0 <= k < s.durable && k < |s.sink| && s.sink[k].Queued? && s.sink[k].stamped.rec == rec;
    assert Next(s, l).sink[k] == s.sink[k];
  }

  /** Queueing an ERROR makes its thread wait for it. */
  lemma ErrorMakesWait(s: System, t: nat, rec: Rec, canGrow: bool)
    requires NumbersOk(s) && t in s.clients && rec.level.Error?
    requires TryQueueNext(s, t, rec, canGrow).numbered != s.numbered
    ensures WaitsFor(TryQueueNext(s, t, rec, canGrow), t, rec)
  {
  }

  lemma WaitEndsOnDisk(s: System, t: nat, rec: Rec)
    requires Inv(s) && ClientEnabled(s, t, FlushDone) && WaitsFor(s, t, rec) && rec.level.Error?
    ensures OnDisk(s, rec)
  {
    var n := s.clients[t].seqNo;
    if 0 < n <= |s.numbered| && s.numbered[n - 1] == rec {
      WaitOver(s, t);
      PushedOutIsOnDisk(s, s.numbered[..n], n - 1);
    }
  }

  lemma PushedOutIsOnDisk(s: System, goal: seq<Rec>, k: nat)
    requires PushedOut(s, goal) && k < |goal| && goal[k].level.Error?
    requires forall j :: 0 <= j < s.flushed && IsError(s.sink[j]) ==> j < s.durable
    ensures OnDisk(s, goal[k])
  {
    assert goal[k] == QueuedRecs(s.sink[..s.flushed])[k];
    var j := QueuedRecIsEntry(s.sink[..s.flushed], goal[k]);
    assert s.sink[..s.flushed][j] == s.sink[j];
  }

  lemma WaitsForStep(s: System, l: Label, t: nat, rec: Rec)
    requires Inv(s) && Enabled(s, l) && WaitsFor(s, t, rec) && rec.level.Error? && l != Client(t, FlushTimeout)
    ensures WaitsFor(Next(s, l), t, rec)
  {
    if OnDisk(s, rec) {
      OnDiskStays(s, l, rec);
    } else if l == Client(t, FlushDone) {
      WaitEndsOnDisk(s, t, rec);
    } else {
      OthersStay(s, l, t);
    }
  }

  lemma WaitsForRunStep(trace: seq<System>, labels: seq<Label>, j: nat, t: nat, rec: Rec)
    requires IsRun(trace, labels) && Init(trace[0]) && j < |labels| && WaitsFor(trace[j], t, rec)
    requires rec.level.Error? && labels[j] != Client(t, FlushTimeout)
    ensures WaitsFor(trace[j + 1], t, rec)
  {
    assert Enabled(trace[j], labels[j]) && trace[j + 1] == Next(trace[j], labels[j]);
    RunInv(trace, labels, j);
    WaitsForStep(trace[j], labels[j], t, rec);
  }

  lemma WaitsForStarts(trace: seq<System>, labels: seq<Label>, i: nat, t: nat, rec: Rec, canGrow: bool)
    requires IsRun(trace, labels) && Init(trace[0]) && i < |labels|
    requires labels[i] == Client(t, TryQueue(canGrow)) && Held(trace[i].clients[t]) == Some(rec) && rec.level.Error?
    requires trace[i + 1].numbered != trace[i].numbered
    ensures WaitsFor(trace[i + 1], t, rec)
  {
    assert Enabled(trace[i], labels[i]) && trace[i + 1] == Next(trace[i], labels[i]);
    RunInv(trace, labels, i);
    ErrorMakesWait(trace[i], t, rec, canGrow);
  }

  lemma {:induction false} WaitsForHolds(trace: seq<System>, i: nat, k: nat, t: nat, rec: Rec)
    requires i < k < |trace| && WaitsFor(trace[i + 1], t, rec)
    requires forall j :: i < j < k && WaitsFor(trace[j], t, rec) ==> WaitsFor(trace[j + 1], t, rec)
    ensures WaitsFor(trace[k], t, rec)
    decreases k
  {
    if i + 1 < k {
      WaitsForHolds(trace, i, k - 1, t, rec);
      assert WaitsFor(trace[k - 1], t, rec) ==> WaitsFor(trace[k - 1 + 1], t, rec);
    }
  }

  /** A thread whose ERROR has been queued does nothing else before the record is on disk, unless its wait
  runs out. */
  lemma ErrorIsDurable(trace: seq<System>, labels: seq<Label>, i: nat, k: nat, t: nat, rec: Rec, canGrow: bool)
    requires IsRun(trace, labels) && Init(trace[0]) && i < k < |trace|
    requires labels[i] == Client(t, TryQueue(canGrow)) && Held(trace[i].clients[t]) == Some(rec) && rec.level.Error?
    requires trace[i + 1].numbered != trace[i].numbered
    requires forall j :: i < j < k ==> labels[j] != Client(t, FlushTimeout)
    requires t in trace[k].clients && !trace[k].clients[t].Flushing?
    ensures OnDisk(trace[k], rec)
  {
    WaitsForStarts(trace, labels, i, t, rec, canGrow);
    forall j | i < j < k && WaitsFor(trace[j], t, rec) ensures WaitsFor(trace[j + 1], t, rec) {
      WaitsForRunStep(trace, labels, j, t, rec);
    }
    WaitsForHolds(trace, i, k, t, rec);
  }

  // ---------------------------------------------------------------- which way a record goes

  /** The record is not queued and its thread does not mean to queue it. */
  ghost predicate GoesDirectly(s: System, t: nat, rec: Rec) {
    && t in s.clients && Submitted(s, rec) && rec.thread == t && rec !in s.numbered
    && s.clients[t] != Got(rec) && s.clients[t] != Blocked(rec)
  }

  lemma HeldIsLatest(s: System, t: nat, rec: Rec)
    requires HandsOk(s) && t in s.clients && Held(s.clients[t]) == Some(rec)
    ensures |s.submitted[t]| > 0 && rec == s.submitted[t][|s.submitted[t]| - 1] && rec.index == |s.submitted[t]| - 1
  {
  }

  lemma DirectStays(s: System, l: Label, t: nat, rec: Rec)
    requires Inv(s) && Enabled(s, l) && GoesDirectly(s, t, rec)
    ensures GoesDirectly(Next(s, l), t, rec)
  {
    match l
    case Client(u, c) =>
      if c.TryQueue? {
        DirectStaysQueued(s, u, c.canGrow, t, rec);
      } else {
        DirectStaysClient(s, u, c, t, rec);
      }
    case Writer(w) => WriterLeavesThreads(s, w);
    case Switch(a) => SwitchFrame(s, a);
  }

  lemma WriterLeavesThreads(s: System, w: WriterAction)
    requires WriterEnabled(s, w)
    ensures var s' := WriterNext(s, w);
      s'.clients == s.clients && s'.submitted == s.submitted && s'.numbered == s.numbered
  {
  }

  lemma DirectStaysQueued(s: System, u: nat, canGrow: bool, t: nat, rec: Rec)
    requires HandsOk(s) && ClientEnabled(s, u, TryQueue(canGrow)) && GoesDirectly(s, t, rec)
    ensures GoesDirectly(TryQueueNext(s, u, s.clients[u].rec, canGrow), t, rec)
  {
    QueuedHeld(s, u, s.clients[u].rec, canGrow);
    HeldIsLatest(s, u, s.clients[u].rec);
  }

  lemma DirectStaysClient(s: System, u: nat, c: ClientAction, t: nat, rec: Rec)
    requires HandsOk(s) && ClientEnabled(s, u, c) && !c.TryQueue? && GoesDirectly(s, t, rec)
    ensures GoesDirectly(ClientNext(s, u, c), t, rec)
  {
    SubmitsOnly(s, u, c);
  }

  lemma QueuedHeld(s: System, u: nat, rec: Rec, canGrow: bool)
    requires u in s.clients
    ensures var s' := TryQueueNext(s, u, rec, canGrow);
      && s'.submitted == s.submitted && s'.clients.Keys == s.clients.Keys
      && (s'.numbered == s.numbered || s'.numbered == s.numbered + [rec])
      && (forall v :: v in s.clients && v != u ==> s'.clients[v] == s.clients[v])
      && Held(s'.clients[u]) in {None, Some(rec)}
  {
  }

  lemma SubmitsOnly(s: System, u: nat, c: ClientAction)
    requires HandsOk(s) && ClientEnabled(s, u, c) && !c.TryQueue?
    ensures var s' := ClientNext(s, u, c);
      && s'.clients.Keys == s.clients.Keys && s'.numbered == s.numbered
      && (forall v :: v in s.clients && v != u ==> s'.clients[v] == s.clients[v])
      && (forall r :: Submitted(s, r) ==> Submitted(s', r))
      && (s'.clients[u].Got? ==> c.Submit? && s'.clients[u].rec.index == |s.submitted[u]|)
      && !s'.clients[u].Blocked?
  {
  }

  lemma DirectRunStep(trace: seq<System>, labels: seq<Label>, j: nat, t: nat, rec: Rec)
    requires IsRun(trace, labels) && Init(trace[0]) && j < |labels| && GoesDirectly(trace[j], t, rec)
    ensures GoesDirectly(trace[j + 1], t, rec)
  {
    assert Enabled(trace[j], labels[j]) && trace[j + 1] == Next(trace[j], labels[j]);
    RunInv(trace, labels, j);
    DirectStays(trace[j], labels[j], t, rec);
  }

  lemma DirectStarts(trace: seq<System>, labels: seq<Label>, i: nat, t: nat, level: Level)
    requires IsRun(trace, labels) && Init(trace[0]) && i < |labels|
    requires labels[i] == Client(t, Submit(level)) && !trace[i].mode.Async?
    ensures t in trace[i].submitted && GoesDirectly(trace[i + 1], t, Rec(t, |trace[i].submitted[t]|, level))
  {
    assert Enabled(trace[i], labels[i]) && trace[i + 1] == Next(trace[i], labels[i]);
    RunInv(trace, labels, i);
    NotYetAnywhere(trace[i], Rec(t, |trace[i].submitted[t]|, level));
  }

  lemma {:induction false} DirectHolds(trace: seq<System>, i: nat, k: nat, t: nat, rec: Rec)
    requires i < k < |trace| && GoesDirectly(trace[i + 1], t, rec)
    requires forall j :: i < j < k && GoesDirectly(trace[j], t, rec) ==> GoesDirectly(trace[j + 1], t, rec)
    ensures GoesDirectly(trace[k], t, rec)
    decreases k
  {
    if i + 1 < k {
      DirectHolds(trace, i, k - 1, t, rec);
      assert GoesDirectly(trace[k - 1], t, rec) ==> GoesDirectly(trace[k - 1 + 1], t, rec);
    }
  }

  /** A record that its thread submits after it has seen the switch is never queued. */
  lemma LateIsDirect(trace: seq<System>, labels: seq<Label>, i: nat, k: nat, t: nat, level: Level)
    requires IsRun(trace, labels) && Init(trace[0]) && i < k < |trace|
    requires labels[i] == Client(t, Submit(level)) && !trace[i].mode.Async?
    ensures t in trace[i].submitted && Rec(t, |trace[i].submitted[t]|, level) !in trace[k].numbered
  {
    DirectStarts(trace, labels, i, t, level);
    var rec := Rec(t, |trace[i].submitted[t]|, level);
    forall j | i < j < k && GoesDirectly(trace[j], t, rec) ensures GoesDirectly(trace[j + 1], t, rec) {
      DirectRunStep(trace, labels, j, t, rec);
    }
    DirectHolds(trace, i, k, t, rec);
  }

  lemma NotYetAnywhere(s: System, rec: Rec)
    requires ConserveOk(s) && SinkOk(s) && !Submitted(s, rec)
    ensures rec !in s.numbered
  {
    assert Places(s)[rec] == 0;
    var h := Handled(s);
    assert s.numbered == s.numbered[..h] + s.numbered[h..];
    assert rec !in SinkRecs(s.sink) && rec !in s.numbered[h..];
    QueuedInSink(s.sink, rec);
  }

  lemma QueuedInSink(sink: seq<Entry>, rec: Rec)
    ensures rec in QueuedRecs(sink) ==> rec in SinkRecs(sink)
  {
    if rec in QueuedRecs(sink) {
      var k := QueuedRecIsEntry(sink, rec);
      QueuedIsInSink(sink, k);
    }
  }

  lemma {:induction false} QueuedIsInSink(sink: seq<Entry>, k: nat)
    requires k < |sink| && sink[k].Queued?
    ensures sink[k].stamped.rec in SinkRecs(sink)
  {
    if k < |sink| - 1 { QueuedIsInSink(sink[..|sink| - 1], k); }
  }

  // ---------------------------------------------------------------- what the disk is flushed for

  /** The mark for a durable flush means that there is an ERROR. */
  ghost predicate MarkExact(s: System) {
    !s.disturbed ==>
      && (s.b.errorPending ==> HoldsError(s.b.front))
      && (s.writer.Taken? || s.writer.Writing? ==> s.writer.batch.durable ==> HoldsError(s.b.back))
  }

  lemma EnqueueMark(b: Backend, rec: Rec)
    requires b.errorPending ==> HoldsError(b.front)
    ensures var b' := Enqueue(b, rec, true).0; b'.errorPending ==> HoldsError(b'.front)
  {
    var b' := Enqueue(b, rec, true).0;
    if Enqueue(b, rec, true).1.Enqueued? {
      if rec.level.Error? {
        assert b'.front[|b.front|].rec.level.Error?;
      } else if b.errorPending {
        var k :| 0 <= k < |b.front| && b.front[k].rec.level.Error?;
        assert b'.front[k] == b.front[k];
      }
    }
  }

  lemma TryQueueKeepsMark(s: System, t: nat, rec: Rec, canGrow: bool)
    requires MarkExact(s)
    ensures MarkExact(TryQueueNext(s, t, rec, canGrow))
  {
    if canGrow && !s.disturbed { EnqueueMark(s.b, rec); }
  }

  lemma StepKeepsMark(s: System, l: Label)
    requires Inv(s) && Enabled(s, l) && MarkExact(s)
    ensures MarkExact(Next(s, l))
  {
    match l
    case Client(t, c) =>
      if c.TryQueue? {
        TryQueueKeepsMark(s, t, s.clients[t].rec, c.canGrow);
      } else if !c.WriteDirect? {
        PassiveFrame(s, t, c);
      }
    case Writer(w) => WriterKeepsMark(s, w);
    case Switch(a) => SwitchFrame(s, a);
  }

  lemma WriterKeepsMark(s: System, w: WriterAction)
    requires MarkExact(s) && NumbersOk(s) && WriterEnabled(s, w)
    ensures MarkExact(WriterNext(s, w))
  {
  }

  lemma RunStepKeepsMark(trace: seq<System>, labels: seq<Label>, j: nat)
    requires IsRun(trace, labels) && Init(trace[0]) && j < |labels| && MarkExact(trace[j])
    ensures MarkExact(trace[j + 1])
  {
    assert Enabled(trace[j], labels[j]) && trace[j + 1] == Next(trace[j], labels[j]);
    RunInv(trace, labels, j);
    StepKeepsMark(trace[j], labels[j]);
  }

  lemma {:induction false} RunMark(trace: seq<System>, labels: seq<Label>, i: nat)
    requires IsRun(trace, labels) && Init(trace[0]) && i < |trace|
    ensures MarkExact(trace[i])
  {
    if i > 0 {
      RunMark(trace, labels, i - 1);
      RunStepKeepsMark(trace, labels, i - 1);
    }
  }

  /** The step hands an ERROR to the disk: a direct write of one, or the end of a batch that holds one. */
  predicate ForError(s: System, l: Label) {
    match l
    case Client(t, c) => c.WriteDirect? && t in s.clients && s.clients[t].Writes? && s.clients[t].rec.level.Error?
    case Writer(w) => w.EndBatch? && HoldsError(s.b.back)
    case Switch(_) => false
  }

  lemma DurableStep(s: System, l: Label)
    requires Inv(s) && Enabled(s, l) && MarkExact(s) && !s.disturbed
    ensures ForError(s, l) ==> Next(s, l).durable == |Next(s, l).sink|
    ensures !ForError(s, l) ==> Next(s, l).durable == s.durable
  {
    match l
    case Client(t, c) =>
      if c.TryQueue? {
        TryQueueFlushes(s, t, s.clients[t].rec, c.canGrow);
      } else if !c.WriteDirect? {
        PassiveFrame(s, t, c);
      }
    case Writer(w) =>
    case Switch(a) => SwitchFrame(s, a);
  }

  /** The disk is flushed for an ERROR, and, unless the mark of one whose buffer could not grow is still
  set, for nothing else. */
  lemma DurableForErrorsOnly(trace: seq<System>, labels: seq<Label>, i: nat)
    requires IsRun(trace, labels) && Init(trace[0]) && Undisturbed(labels) && i < |labels|
    ensures trace[i + 1].durable == if ForError(trace[i], labels[i]) then |trace[i + 1].sink| else trace[i].durable
  {
    RunInv(trace, labels, i);
    RunMark(trace, labels, i);
    UndisturbedState(trace, labels, i);
    assert Enabled(trace[i], labels[i]) && trace[i + 1] == Next(trace[i], labels[i]);
    DurableStep(trace[i], labels[i]);
  }

  // ---------------------------------------------------------------- when a thread writes by itself

  /** Unless something ran out, threads write by themselves in mode Sync only. */
  ghost predicate WritesInSync(s: System) {
    !s.disturbed ==> forall t :: t in s.clients && s.clients[t].Writes? ==> s.mode.Sync?
  }

  lemma StepKeepsWritesInSync(s: System, l: Label)
    requires Inv(s) && Enabled(s, l) && WritesInSync(s)
    ensures WritesInSync(Next(s, l))
  {
    match l
    case Client(t, c) =>
      if c.TryQueue? {
        QueuedHeld(s, t, s.clients[t].rec, c.canGrow);
        TryQueueNeverWrites(s, t, s.clients[t].rec, c.canGrow);
      } else {
        ClientWritesInSync(s, t, c);
      }
    case Writer(w) => WriterLeavesThreads(s, w);
    case Switch(a) => SwitchFrame(s, a);
  }

  lemma TryQueueNeverWrites(s: System, t: nat, rec: Rec, canGrow: bool)
    requires t in s.clients
    ensures var s' := TryQueueNext(s, t, rec, canGrow);
      !s'.clients[t].Writes? && s'.mode == s.mode && (s.disturbed ==> s'.disturbed)
  {
  }

  lemma ClientWritesInSync(s: System, t: nat, c: ClientAction)
    requires OrderOk(s) && ClientEnabled(s, t, c) && !c.TryQueue? && WritesInSync(s)
    ensures WritesInSync(ClientNext(s, t, c))
  {
  }

  lemma RunStepWritesInSync(trace: seq<System>, labels: seq<Label>, j: nat)
    requires IsRun(trace, labels) && Init(trace[0]) && j < |labels| && WritesInSync(trace[j])
    ensures WritesInSync(trace[j + 1])
  {
    assert Enabled(trace[j], labels[j]) && trace[j + 1] == Next(trace[j], labels[j]);
    RunInv(trace, labels, j);
    StepKeepsWritesInSync(trace[j], labels[j]);
  }

  lemma {:induction false} RunWritesInSync(trace: seq<System>, labels: seq<Label>, i: nat)
    requires IsRun(trace, labels) && Init(trace[0]) && i < |trace|
    ensures WritesInSync(trace[i])
  {
    if i > 0 {
      RunWritesInSync(trace, labels, i - 1);
      RunStepWritesInSync(trace, labels, i - 1);
    }
  }

  /** Nobody writes by itself before the queue has been drained and the mode has become Sync, if no wait
  for that runs out and every buffer can grow. */
  lemma DirectOnlyInSync(trace: seq<System>, labels: seq<Label>, i: nat, t: nat)
    requires IsRun(trace, labels) && Init(trace[0]) && Undisturbed(labels) && i < |labels|
    requires labels[i] == Client(t, WriteDirect)
    ensures trace[i].mode.Sync? && trace[i].b.front == trace[i].b.back == []
  {
    RunInv(trace, labels, i);
    RunWritesInSync(trace, labels, i);
    UndisturbedState(trace, labels, i);
    assert Enabled(trace[i], labels[i]);
  }
}
