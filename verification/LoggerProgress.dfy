/** The logger comes to rest: without new submissions, flushes and switches only so many steps are left,
and where they end everything has been written. */
module LoggerProgress {
  import opened LogBackend
  import opened LoggerProtocol

  /** The steps that bring new work. */
  predicate IsNew(l: Label) {
    (l.Client? && (l.c.Submit? || l.c.StartFlush?)) || l == Switch(Claim)
  }

  predicate IsTimeout(l: Label) {
    l.Client? && (l.c.FlushTimeout? || l.c.DrainTimeout? || l.c.PauseTimeout?)
  }

  // ---------------------------------------------------------------- how many steps are left

  /** The steps a thread still has to make, with those the writer will make for its record. */
  function ClientSteps(pc: ClientPc): nat {
    match pc
    case Idle => 0
    case Got(_) => 10
    case Blocked(_) => 9
    case Flushing(_, _) => 3
    case Waiting(_) => 2
    case Writes(_) => 1
    case Aiming => 4
    case Pausing => 2
    case Pushing => 1
  }

  function SwitchSteps(pc: SwitchPc): nat {
    match pc
    case NotStarted => 0
    case Claimed => 4
    case Joining => 3
    case Joined => 2
    case WasReset => 1
    case Switched => 0
  }

  function WriterSteps(pc: WriterPc, batch: nat): int {
    match pc
    case Polling => 1
    case Taken(_) => 4 + batch
    case Writing(_, _, done) => 3 + batch - done
    case Finishing(_) => 2
    case Exited => 0
  }

  ghost function Sum(clients: map<nat, ClientPc>): nat
    decreases |clients|
  {
    if clients == map[] then 0
    else
      var t :| t in clients;
      ClientSteps(clients[t]) + Sum(clients - {t})
  }

  lemma {:induction false} SumWithout(clients: map<nat, ClientPc>, t: nat)
    requires t in clients
    ensures Sum(clients) == ClientSteps(clients[t]) + Sum(clients - {t})
    decreases |clients|
  {
    var u :| u in clients && Sum(clients) == ClientSteps(clients[u]) + Sum(clients - {u});
    if u != t {
      SumWithout(clients - {u}, t);
      SumWithout(clients - {t}, u);
      assert clients - {u} - {t} == clients - {t} - {u};
    }
  }

  lemma SumUpdate(clients: map<nat, ClientPc>, t: nat, pc: ClientPc)
    requires t in clients
    ensures Sum(clients[t := pc]) == Sum(clients) - ClientSteps(clients[t]) + ClientSteps(pc)
  {
    SumWithout(clients, t);
    SumWithout(clients[t := pc], t);
    assert clients[t := pc] - {t} == clients - {t};
  }

  /** An upper bound on the steps left if nothing new begins. */
  ghost function Work(s: System): int {
    Sum(s.clients) + 5 * |s.b.front| + WriterSteps(s.writer, |s.b.back|) + SwitchSteps(s.switcher)
  }

  lemma WorkSign(s: System)
    requires BatchOk(s)
    ensures Work(s) >= 0
  {
  }

  lemma TryQueueDrops(s: System, t: nat, rec: Rec, canGrow: bool)
    requires t in s.clients && (s.clients[t] == Got(rec) || s.clients[t] == Blocked(rec))
    requires s.clients[t].Blocked? ==> !Full(s.b) || !s.b.running
    ensures Work(TryQueueNext(s, t, rec, canGrow)) < Work(s)
  {
    SumUpdate(s.clients, t, TryQueueNext(s, t, rec, canGrow).clients[t]);
  }

  lemma ClientDrops(s: System, t: nat, c: ClientAction)
    requires ClientEnabled(s, t, c) && !c.Submit? && !c.StartFlush?
    ensures Work(ClientNext(s, t, c)) < Work(s)
  {
    if c.TryQueue? {
      TryQueueDrops(s, t, s.clients[t].rec, c.canGrow);
    } else {
      SumUpdate(s.clients, t, ClientNext(s, t, c).clients[t]);
    }
  }

  lemma WriterDrops(s: System, w: WriterAction)
    requires NumbersOk(s) && WriterEnabled(s, w)
    ensures Work(WriterNext(s, w)) < Work(s)
  {
  }

  lemma SwitchDrops(s: System, a: SwitchAction)
    requires NumbersOk(s) && ModesOk(s) && SwitchEnabled(s, a) && !a.Claim?
    ensures Work(SwitchNext(s, a)) < Work(s)
  {
    SwitchFrame(s, a);
  }

  lemma WorkDrops(s: System, l: Label)
    requires Inv(s) && Enabled(s, l) && !IsNew(l)
    ensures Work(Next(s, l)) < Work(s)
  {
    match l
    case Client(t, c) => ClientDrops(s, t, c);
    case Writer(w) => WriterDrops(s, w);
    case Switch(a) => SwitchDrops(s, a);
  }

  /** Whatever is under way, a switch and its stop included, ends: once nothing new begins, the threads,
  the writer and the switch together make at most so many more steps, however they are scheduled. */
  lemma {:induction false} QuietRunEnds(trace: seq<System>, labels: seq<Label>, i: nat)
    requires IsRun(trace, labels) && Init(trace[0]) && i < |trace|
    requires forall k :: i <= k < |labels| ==> !IsNew(labels[k])
    ensures |labels| - i <= Work(trace[i])
    decreases |labels| - i
  {
    RunInv(trace, labels, i);
    WorkSign(trace[i]);
    if i < |labels| {
      assert Enabled(trace[i], labels[i]) && trace[i + 1] == Next(trace[i], labels[i]);
      WorkDrops(trace[i], labels[i]);
      QuietRunEnds(trace, labels, i + 1);
    }
  }

  // ---------------------------------------------------------------- where they end

  /** Nothing can happen but new work or a wait running out. */
  ghost predicate AtRest(s: System) {
    forall l :: Enabled(s, l) ==> IsNew(l) || IsTimeout(l)
  }

  lemma WriterRests(s: System)
    requires AtRest(s) && NumbersOk(s) && ModesOk(s) && BatchOk(s)
    ensures s.b.front == s.b.back == [] && (s.writer.Exited? || (s.writer.Polling? && !s.b.stopping))
    ensures s.b.flushedSeq == Handled(s) == s.b.enqueuedSeq == |s.numbered|
  {
    assert !Enabled(s, Writer(Take)) && !Enabled(s, Writer(LockSink)) && !Enabled(s, Writer(WriteOne));
    assert !Enabled(s, Writer(EndBatch)) && !Enabled(s, Writer(Publish)) && !Enabled(s, Writer(Exit));
  }

  lemma SwitchRests(s: System)
    requires AtRest(s) && ModesOk(s) && (s.writer.Exited? || !s.b.stopping)
    ensures s.mode.Async? || s.mode.Sync?
  {
    assert !Enabled(s, Switch(RequestStop)) && !Enabled(s, Switch(Join));
    assert !Enabled(s, Switch(ResetBackend)) && !Enabled(s, Switch(SetSync));
  }

  lemma ClientRests(s: System, t: nat)
    requires AtRest(s) && t in s.clients && t in s.submitted
    requires !Full(s.b) && !s.writer.Writing? && !s.mode.Draining?
    requires s.clients[t].Flushing? ==> s.clients[t].seqNo <= s.b.flushedSeq
    ensures s.clients[t].Idle?
  {
    assert !Enabled(s, Client(t, TryQueue(true))) && !Enabled(s, Client(t, FlushDone));
    assert !Enabled(s, Client(t, DrainDone)) && !Enabled(s, Client(t, WriteDirect));
    assert !Enabled(s, Client(t, AimFlush)) && !Enabled(s, Client(t, PauseDone)) && !Enabled(s, Client(t, PushFile));
  }

  /** Where it ends, no thread waits or holds a record, the mode is settled, nothing is queued, and every
  record ever submitted is in the sinks once, or is a dropped TRACE. */
  lemma RestsOnlyWhenDone(trace: seq<System>, labels: seq<Label>, i: nat)
    requires IsRun(trace, labels) && Init(trace[0]) && i < |trace| && AtRest(trace[i])
    ensures var s := trace[i];
      && (s.mode.Async? || s.mode.Sync?) && (forall t :: t in s.clients ==> s.clients[t].Idle?)
      && s.b.front == s.b.back == [] && s.b.flushedSeq == s.b.enqueuedSeq && s.flushed == |s.sink|
      && QueuedRecs(s.sink) == s.numbered
      && (forall r: Rec :: multiset(SinkRecs(s.sink))[r] + multiset(s.dropped)[r] == if Submitted(s, r) then 1 else 0)
      && NoteSum(s.sink) == |s.dropped|
  {
    RunInv(trace, labels, i);
    var s := trace[i];
    WriterRests(s);
    SwitchRests(s);
    forall t | t in s.clients ensures s.clients[t].Idle? {
      ClientRests(s, t);
    }
    assert s.numbered[..|s.numbered|] == s.numbered && s.numbered[|s.numbered|..] == [];
    forall r: Rec
      ensures multiset(SinkRecs(s.sink))[r] + multiset(s.dropped)[r] == if Submitted(s, r) then 1 else 0
    {
      assert Places(s)[r] == if Submitted(s, r) && !InHand(s, r) then 1 else 0;
    }
  }

  // ---------------------------------------------------------------- who waits for what

  /** What a thread can be held up by: a full buffer, a number that is not published, the end of draining,
  or the writer at work. A wait can run out, except that for space. */
  lemma ThreadWaitsOnlyFor(s: System, t: nat, level: Level)
    requires t in s.clients && t in s.submitted
    ensures match s.clients[t]
      case Idle => ClientEnabled(s, t, Submit(level)) && ClientEnabled(s, t, StartFlush)
      case Got(_) => ClientEnabled(s, t, TryQueue(true)) && ClientEnabled(s, t, TryQueue(false))
      case Blocked(_) =>
        if Full(s.b) && s.b.running then forall c: ClientAction :: !ClientEnabled(s, t, c)
        else ClientEnabled(s, t, TryQueue(true)) && ClientEnabled(s, t, TryQueue(false))
      case Flushing(n, _) =>
        ClientEnabled(s, t, FlushTimeout) && (ClientEnabled(s, t, FlushDone) <==> s.b.flushedSeq >= n || !s.b.running)
      case Waiting(_) => ClientEnabled(s, t, if s.mode.Draining? then DrainTimeout else DrainDone) && (ClientEnabled(s, t, DrainDone) <==> !s.mode.Draining?)
      case Writes(_) => ClientEnabled(s, t, WriteDirect) <==> !s.writer.Writing?
      case Aiming => ClientEnabled(s, t, AimFlush)
      case Pausing => ClientEnabled(s, t, if s.mode.Draining? then PauseTimeout else PauseDone) && (ClientEnabled(s, t, PauseDone) <==> !s.mode.Draining?)
      case Pushing => ClientEnabled(s, t, PushFile) <==> !s.writer.Writing?
  {
  }

  /** The writer is held up by an empty buffer only, the switch by the writer it has to join only, and in
  mode Async a switch can begin. */
  lemma WriterWaitsOnlyFor(trace: seq<System>, labels: seq<Label>, i: nat)
    requires IsRun(trace, labels) && Init(trace[0]) && i < |trace|
    ensures var s := trace[i];
      && ((forall w :: !WriterEnabled(s, w)) <==> s.writer.Exited? || (s.writer.Polling? && s.b.front == [] && !s.b.stopping))
      && (s.mode.Async? ==> SwitchEnabled(s, Claim))
      && (s.mode.Draining? && (forall a :: !SwitchEnabled(s, a)) ==> s.switcher.Joining? && !s.writer.Exited? && s.b.stopping)
  {
    RunInv(trace, labels, i);
    var s := trace[i];
    assert WriterEnabled(s, Take) || WriterEnabled(s, LockSink) || WriterEnabled(s, WriteOne) || WriterEnabled(s, EndBatch)
      || WriterEnabled(s, Publish) || WriterEnabled(s, Exit)
      <==> !(s.writer.Exited? || (s.writer.Polling? && s.b.front == [] && !s.b.stopping));
    assert SwitchEnabled(s, RequestStop) <==> s.switcher.Claimed?;
    assert SwitchEnabled(s, ResetBackend) <==> s.switcher.Joined?;
    assert SwitchEnabled(s, SetSync) <==> s.switcher.WasReset?;
    assert SwitchEnabled(s, Join) <==> s.switcher.Joining? && s.writer.Exited?;
  }
}
