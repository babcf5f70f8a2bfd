/** The counter protocol that decides which thread drains a job queue, over every interleaving of the
atomic steps of any number of threads.

A push adds one to the counter, exchanges the head, links, and then enters `Execute` if the counter
was zero. `Execute` pops until a load fails, runs the batch, subtracts the batch size, and leaves if
nothing else was counted. Jobs may push to the queue they run on. */
module JobQueueProtocol {
  import opened Options
  import opened MpscQueue

  type Tid = nat

  /** Where a thread is inside `Push`; `prev` is the counter value its `fetch_add` returned. */
  datatype PushPc<J> =
    | NoPush
    | Counted(job: J, prev: int, pushOnly: bool)
    | Exchanged(slot: nat, prev: int, pushOnly: bool)
    | Linked(prev: int, pushOnly: bool)

  /** One activation of `Execute`. `Taking` is inside a pop whose load succeeded; `done` jobs of the
  batch have ended, and `inJob` says that job number `done` is running. */
  datatype Frame<J> =
    | Loading(batch: seq<J>)
    | Taking(batch: seq<J>)
    | Running(batch: seq<J>, done: nat, inJob: bool)

  /** `frames` is the thread's stack of `Execute` activations: a push made by a job could nest one. */
  datatype Thread<J> = Thread(push: PushPc<J>, frames: seq<Frame<J>>)

  datatype System<J> = System(
    count: int,                      // _jobCount
    q: Queue<J>,                     // _jobs
    threads: map<Tid, Thread<J>>,
    started: seq<J>                  // jobs whose execution has begun, in order
  )

  datatype Action<J> =
    | Begin(job: J, pushOnly: bool)  // fetch_add(1)
    | ExchangeHead
    | LinkPrev
    | Decide                         // enter Execute or return
    | Load                           // Pop: read the link of the dummy
    | Take                           // Pop: take the value
    | StartJob
    | EndJob(threw: bool)
    | Subtract                       // fetch_sub(batch size), then leave or loop

  datatype Label<J> = Label(t: Tid, action: Action<J>)

  function Top<J>(th: Thread<J>): Frame<J>
    requires th.frames != []
  {
    th.frames[|th.frames| - 1]
  }

  function SetTop<J>(th: Thread<J>, f: Frame<J>): (r: Thread<J>)
    requires th.frames != []
    ensures |r.frames| == |th.frames| && Top(r) == f && r.push == th.push
  {
    th.(frames := th.frames[..|th.frames| - 1] + [f])
  }

  ghost predicate Enabled<J>(s: System<J>, l: Label<J>) {
    && l.t in s.threads
    && var th := s.threads[l.t];
       match l.action
       case Begin(_, _) => th.push.NoPush? && (th.frames == [] || (Top(th).Running? && Top(th).inJob))
       case ExchangeHead => th.push.Counted?
       case LinkPrev => th.push.Exchanged?
       case Decide => th.push.Linked?
       case Load => th.push.NoPush? && th.frames != [] && Top(th).Loading?
       case Take => th.push.NoPush? && th.frames != [] && Top(th).Taking? && s.q.Poppable()
       case StartJob =>
         th.push.NoPush? && th.frames != [] && Top(th).Running? && !Top(th).inJob && Top(th).done < |Top(th).batch|
       case EndJob(_) => th.push.NoPush? && th.frames != [] && Top(th).Running? && Top(th).inJob
       case Subtract =>
         th.push.NoPush? && th.frames != [] && Top(th).Running? && !Top(th).inJob && Top(th).done == |Top(th).batch|
  }

  function SetThread<J>(s: System<J>, t: Tid, th: Thread<J>): System<J> {
    s.(threads := s.threads[t := th])
  }

  /** The effect of one atomic step. A job that throws ends like one that returns. */
  function Next<J>(s: System<J>, l: Label<J>): System<J>
    requires Enabled(s, l)
  {
    var th := s.threads[l.t];
    match l.action
    case Begin(job, pushOnly) =>
      SetThread(s, l.t, th.(push := Counted(job, s.count, pushOnly))).(count := s.count + 1)
    case ExchangeHead =>
      SetThread(s, l.t, th.(push := Exchanged(|s.q.pushed|, th.push.prev, th.push.pushOnly))).
      (q := s.q.Exchange(th.push.job))
    case LinkPrev =>
      SetThread(s, l.t, th.(push := Linked(th.push.prev, th.push.pushOnly))).(q := s.q.Link(th.push.slot))
    case Decide =>
      var frames := if th.push.prev == 0 && !th.push.pushOnly then th.frames + [Loading([])] else th.frames;
      SetThread(s, l.t, Thread(NoPush, frames))
    case Load =>
      var batch := Top(th).batch;
      SetThread(s, l.t, SetTop(th, if s.q.Poppable() then Taking(batch) else Running(batch, 0, false)))
    case Take =>
      SetThread(s, l.t, SetTop(th, Loading(Top(th).batch + [s.q.pushed[s.q.popped]]))).(q := s.q.Pop())
    case StartJob =>
      var f := Top(th);
      SetThread(s, l.t, SetTop(th, f.(inJob := true))).(started := s.started + [f.batch[f.done]])
    case EndJob(_) =>
      var f := Top(th);
      SetThread(s, l.t, SetTop(th, Running(f.batch, f.done + 1, false)))
    case Subtract =>
      var n := |Top(th).batch|;
      var th' := if s.count == n then th.(frames := th.frames[..|th.frames| - 1]) else SetTop(th, Loading([]));
      SetThread(s, l.t, th').(count := s.count - n)
  }

  ghost predicate Init<J>(s: System<J>) {
    && s.count == 0 && s.q == Empty() && s.started == []
    && forall t :: t in s.threads ==> s.threads[t] == Thread(NoPush, [])
  }

  /** A run: states and the labels between them. */
  ghost predicate IsRun<J>(trace: seq<System<J>>, labels: seq<Label<J>>) {
    && |trace| == |labels| + 1
    && forall i :: 0 <= i < |labels| ==> Enabled(trace[i], labels[i]) && trace[i + 1] == Next(trace[i], labels[i])
  }

  /** The callers' obligation: nobody asks for a push that leaves draining to others. */
  ghost predicate Eager<J>(labels: seq<Label<J>>) {
    forall i :: 0 <= i < |labels| && labels[i].action.Begin? ==> !labels[i].action.pushOnly
  }

  /** Threads whose push is counted but not yet in the queue. */
  function Counting<J>(s: System<J>): set<Tid> {
    set t | t in s.threads && s.threads[t].push.Counted?
  }

  predicate InExecute<J>(th: Thread<J>) {
    th.frames != []
  }

  /** The threads that are in `Execute` or whose push will make them enter it. */
  predicate Owns<J>(th: Thread<J>) {
    InExecute(th) || (!th.push.NoPush? && th.push.prev == 0 && !th.push.pushOnly)
  }

  /** The jobs the owner has popped and not yet subtracted. */
  function BatchOf<J>(s: System<J>, o: Option<Tid>): seq<J> {
    if o.Some? && o.value in s.threads && InExecute(s.threads[o.value]) then Top(s.threads[o.value]).batch else []
  }

  /** How many jobs of a batch have been started. */
  function Begun<J>(f: Frame<J>): nat {
    if f.Running? then f.done + (if f.inJob then 1 else 0) else 0
  }

  function BegunOf<J>(s: System<J>, o: Option<Tid>): nat {
    if o.Some? && o.value in s.threads && InExecute(s.threads[o.value]) then Begun(Top(s.threads[o.value])) else 0
  }

  ghost predicate ThreadOk<J>(s: System<J>, th: Thread<J>) {
    && |th.frames| <= 1
    && (InExecute(th) && !th.push.NoPush? ==> Top(th).Running? && Top(th).inJob && th.push.prev != 0)
    && (InExecute(th) ==> Begun(Top(th)) <= |Top(th).batch|)
    && (InExecute(th) && Top(th).Taking? ==> s.q.Poppable())
    && (th.push.Exchanged? ==> th.push.slot in s.q.unlinked)
  }

  predicate SameSlot<J>(th: Thread<J>, k: nat) {
    th.push.Exchanged? && th.push.slot == k
  }

  /** Every unlinked slot belongs to exactly one thread between its exchange and its link. */
  ghost predicate SlotsDistinct<J>(s: System<J>) {
    forall t, u, k :: t in s.threads && u in s.threads && SameSlot(s.threads[t], k) && SameSlot(s.threads[u], k) ==> t == u
  }

  ghost predicate SlotsHeld<J>(s: System<J>) {
    forall k :: k in s.q.unlinked ==> exists t :: t in s.threads && SameSlot(s.threads[t], k)
  }

  ghost predicate OneOwner<J>(s: System<J>, o: Option<Tid>) {
    && (o.Some? ==> o.value in s.threads)
    && forall t :: t in s.threads ==> (Owns(s.threads[t]) <==> o == Some(t))
  }

  /** What the popped part of the queue has become: started jobs, then the rest of the batch `b`, of
  which `n` jobs have been started. */
  ghost predicate History<J>(q: Queue<J>, started: seq<J>, b: seq<J>, n: nat) {
    && n <= |b| <= q.popped <= |q.pushed|
    && b == q.pushed[q.popped - |b|..q.popped]
    && started == q.pushed[..q.popped - |b| + n]
  }

  ghost predicate HistoryOk<J>(s: System<J>, o: Option<Tid>) {
    History(s.q, s.started, BatchOf(s, o), BegunOf(s, o))
  }

  /** The inductive invariant, with the thread that owns the right to drain. */
  ghost predicate InvOwner<J>(s: System<J>, o: Option<Tid>) {
    && s.q.Valid()
    && (forall t :: t in s.threads ==> ThreadOk(s, s.threads[t]))
    && SlotsDistinct(s)
    && SlotsHeld(s)
    && OneOwner(s, o)
    && (o.Some? ==> s.count > 0)
    && HistoryOk(s, o)
    && s.count == |Counting(s)| + |s.q.Remaining()| + |BatchOf(s, o)|
  }

  /** In runs without push-only pushes, the counter is zero exactly when nobody owns the queue. */
  ghost predicate EagerOk<J>(s: System<J>, o: Option<Tid>) {
    && (o.None? <==> s.count == 0)
    && PushesEager(s)
  }

  function NextOwner<J>(s: System<J>, l: Label<J>, o: Option<Tid>): Option<Tid>
    requires Enabled(s, l)
  {
    match l.action
    case Begin(_, pushOnly) => if s.count == 0 && !pushOnly then Some(l.t) else o
    case Subtract => if s.count == |Top(s.threads[l.t]).batch| then None else o
    case _ => o
  }

  /** A thread with an `Execute` activation is the owner, so its top frame is what `BatchOf` reads. */
  lemma FrameIsOwners<J>(s: System<J>, t: Tid, o: Option<Tid>)
    requires InvOwner(s, o) && t in s.threads && InExecute(s.threads[t])
    ensures o == Some(t) && BatchOf(s, o) == Top(s.threads[t]).batch
    ensures |s.threads[t].frames| == 1
    ensures s.count >= |Top(s.threads[t]).batch|
  {
    assert Owns(s.threads[t]);
    assert ThreadOk(s, s.threads[t]);
  }

  lemma KeepsQueueValid<J>(s: System<J>, l: Label<J>, o: Option<Tid>)
    requires InvOwner(s, o) && Enabled(s, l)
    ensures Next(s, l).q.Valid()
  {
  }

  lemma OthersStay<J>(s: System<J>, l: Label<J>, t: Tid)
    requires Enabled(s, l) && t in s.threads && t != l.t
    ensures Next(s, l).threads.Keys == s.threads.Keys && Next(s, l).threads[t] == s.threads[t]
  {
  }

  /** How a step can change the queue. */
  lemma QueueSteps<J>(s: System<J>, l: Label<J>)
    requires Enabled(s, l)
    ensures Next(s, l).q ==
      match l.action
      case ExchangeHead => s.q.Exchange(s.threads[l.t].push.job)
      case LinkPrev => s.q.Link(s.threads[l.t].push.slot)
      case Take => s.q.Pop()
      case _ => s.q
  {
  }

  /** What one thread's step does to the queue as another thread sees it. */
  lemma OthersKeepQueue<J>(s: System<J>, l: Label<J>, o: Option<Tid>, t: Tid)
    requires InvOwner(s, o) && Enabled(s, l) && t in s.threads && t != l.t
    ensures Next(s, l).threads.Keys == s.threads.Keys && Next(s, l).threads[t] == s.threads[t]
    ensures InExecute(s.threads[t]) && s.q.Poppable() ==> Next(s, l).q.Poppable()
    ensures s.threads[t].push.Exchanged? ==> s.threads[t].push.slot in Next(s, l).q.unlinked
  {
    OthersStay(s, l, t);
    QueueSteps(s, l);
    assert ThreadOk(s, s.threads[t]);
    if l.action.Take? {
      FrameIsOwners(s, l.t, o);
      if InExecute(s.threads[t]) { FrameIsOwners(s, t, o); }
    } else if l.action.LinkPrev? && s.threads[t].push.Exchanged? {
      assert SameSlot(s.threads[t], s.threads[t].push.slot);
    }
  }

  lemma ActorAfter<J>(s: System<J>, l: Label<J>)
    requires Enabled(s, l) && s.q.Valid() && ThreadOk(s, s.threads[l.t])
    requires InExecute(s.threads[l.t]) ==> s.count >= |Top(s.threads[l.t]).batch|
    ensures ThreadOk(Next(s, l), Next(s, l).threads[l.t])
  {
  }

  lemma ActorStaysOk<J>(s: System<J>, l: Label<J>, o: Option<Tid>)
    requires InvOwner(s, o) && Enabled(s, l)
    ensures ThreadOk(Next(s, l), Next(s, l).threads[l.t])
  {
    assert ThreadOk(s, s.threads[l.t]);
    if InExecute(s.threads[l.t]) { FrameIsOwners(s, l.t, o); }
    ActorAfter(s, l);
  }

  lemma KeepsThreads<J>(s: System<J>, l: Label<J>, o: Option<Tid>)
    requires InvOwner(s, o) && Enabled(s, l)
    ensures forall t :: t in Next(s, l).threads ==> ThreadOk(Next(s, l), Next(s, l).threads[t])
  {
    ActorStaysOk(s, l, o);
    var s' := Next(s, l);
    forall t | t in s'.threads && t != l.t ensures ThreadOk(s', s'.threads[t]) {
      OthersKeepQueue(s, l, o, t);
      assert ThreadOk(s, s.threads[t]);
    }
  }

  lemma KeepsSlotsDistinct<J>(s: System<J>, l: Label<J>, o: Option<Tid>)
    requires InvOwner(s, o) && Enabled(s, l)
    ensures SlotsDistinct(Next(s, l))
  {
    var s' := Next(s, l);
    forall t, u, k | t in s'.threads && u in s'.threads && SameSlot(s'.threads[t], k) && SameSlot(s'.threads[u], k)
      ensures t == u
    {
      assert ThreadOk(s, s.threads[t]) && ThreadOk(s, s.threads[u]);
      if t != l.t { OthersKeepQueue(s, l, o, t); assert SameSlot(s.threads[t], k); }
      if u != l.t { OthersKeepQueue(s, l, o, u); assert SameSlot(s.threads[u], k); }
    }
  }

  lemma KeepsSlotsHeld<J>(s: System<J>, l: Label<J>, o: Option<Tid>)
    requires InvOwner(s, o) && Enabled(s, l)
    ensures SlotsHeld(Next(s, l))
  {
    var s' := Next(s, l);
    assert ThreadOk(s, s.threads[l.t]);
    forall k | k in s'.q.unlinked ensures exists t :: t in s'.threads && SameSlot(s'.threads[t], k) {
      if l.action.ExchangeHead? && k == |s.q.pushed| {
        assert SameSlot(s'.threads[l.t], k);
      } else {
        var t :| t in s.threads && SameSlot(s.threads[t], k);
        assert SameSlot(s'.threads[t], k);
      }
    }
  }

  lemma KeepsOwner<J>(s: System<J>, l: Label<J>, o: Option<Tid>)
    requires InvOwner(s, o) && Enabled(s, l)
    ensures OneOwner(Next(s, l), NextOwner(s, l, o))
    ensures NextOwner(s, l, o).Some? ==> Next(s, l).count > 0
  {
    var s', o' := Next(s, l), NextOwner(s, l, o);
    assert ThreadOk(s, s.threads[l.t]);
    if InExecute(s.threads[l.t]) { FrameIsOwners(s, l.t, o); }
    forall t | t in s'.threads ensures Owns(s'.threads[t]) <==> o' == Some(t) {
      assert Owns(s.threads[t]) <==> o == Some(t);
    }
  }

  /** A step by a thread other than the owner leaves the owner's batch as it is, unless it makes the
  first push onto an idle queue, whose batch is empty. */
  lemma BatchOnlyOwner<J>(s: System<J>, l: Label<J>, o: Option<Tid>)
    requires InvOwner(s, o) && Enabled(s, l) && !InExecute(s.threads[l.t])
    ensures BatchOf(Next(s, l), NextOwner(s, l, o)) == BatchOf(s, o)
    ensures BegunOf(Next(s, l), NextOwner(s, l, o)) == BegunOf(s, o)
    ensures Next(s, l).q.popped == s.q.popped && s.q.pushed <= Next(s, l).q.pushed
    ensures Next(s, l).started == s.started
  {
    assert ThreadOk(s, s.threads[l.t]);
    assert Owns(s.threads[l.t]) <==> o == Some(l.t);
  }

  lemma HistoryGrows<J>(q: Queue<J>, q': Queue<J>, started: seq<J>, b: seq<J>, n: nat)
    requires History(q, started, b, n) && q'.popped == q.popped && q.pushed <= q'.pushed
    ensures History(q', started, b, n)
  {
    assert q'.pushed[..q.popped] == q.pushed[..q.popped];
    assert b == q'.pushed[q.popped - |b|..q.popped];
    assert started == q'.pushed[..q.popped - |b| + n];
  }

  lemma HistoryTakes<J>(q: Queue<J>, started: seq<J>, b: seq<J>)
    requires History(q, started, b, 0) && q.Poppable()
    ensures History(q.Pop(), started, b + [q.pushed[q.popped]], 0)
  {
  }

  lemma HistoryStarts<J>(q: Queue<J>, started: seq<J>, b: seq<J>, n: nat)
    requires History(q, started, b, n) && n < |b|
    ensures History(q, started + [b[n]], b, n + 1)
  {
    assert b[n] == q.pushed[q.popped - |b| + n];
  }

  lemma HistorySubtracts<J>(q: Queue<J>, started: seq<J>, b: seq<J>)
    requires History(q, started, b, |b|)
    ensures History(q, started, [], 0)
  {
  }

  /** How the owner's own steps change its batch. */
  lemma OwnerBatch<J>(s: System<J>, l: Label<J>, o: Option<Tid>)
    requires InvOwner(s, o) && Enabled(s, l) && InExecute(s.threads[l.t])
    ensures var b, n, b', n' := BatchOf(s, o), BegunOf(s, o), BatchOf(Next(s, l), NextOwner(s, l, o)), BegunOf(Next(s, l), NextOwner(s, l, o));
      match l.action
      case Take => b' == b + [s.q.pushed[s.q.popped]] && n == n' == 0
      case StartJob => b' == b && n' == n + 1 && n < |b|
      case Subtract => b' == [] && n == |b| && n' == 0
      case _ => b' == b && n' == n
  {
    FrameIsOwners(s, l.t, o);
    assert ThreadOk(s, s.threads[l.t]);
  }

  lemma KeepsHistory<J>(s: System<J>, l: Label<J>, o: Option<Tid>)
    requires InvOwner(s, o) && Enabled(s, l)
    ensures HistoryOk(Next(s, l), NextOwner(s, l, o))
  {
    var b, n := BatchOf(s, o), BegunOf(s, o);
    if !InExecute(s.threads[l.t]) {
      BatchOnlyOwner(s, l, o);
      HistoryGrows(s.q, Next(s, l).q, s.started, b, n);
    } else {
      FrameIsOwners(s, l.t, o);
      OwnerBatch(s, l, o);
      match l.action
      case Take => HistoryTakes(s.q, s.started, b);
      case StartJob => HistoryStarts(s.q, s.started, b, n);
      case Subtract => HistorySubtracts(s.q, s.started, b);
      case _ => HistoryGrows(s.q, Next(s, l).q, s.started, b, n);
    }
  }

  lemma CountingNext<J>(s: System<J>, l: Label<J>)
    requires Enabled(s, l)
    ensures Counting(Next(s, l)) ==
      if l.action.Begin? then Counting(s) + {l.t}
      else if l.action.ExchangeHead? then Counting(s) - {l.t}
      else Counting(s)
    ensures l.t in Counting(s) <==> l.action.ExchangeHead?
  {
  }

  lemma CountNext<J>(s: System<J>, l: Label<J>)
    requires Enabled(s, l)
    ensures var s' := Next(s, l);
      && s'.count == s.count + (if l.action.Begin? then 1 else 0)
                             - (if l.action.Subtract? then |Top(s.threads[l.t]).batch| else 0)
      && |s'.q.pushed| == |s.q.pushed| + (if l.action.ExchangeHead? then 1 else 0)
      && s'.q.popped == s.q.popped + (if l.action.Take? then 1 else 0)
  {
  }

  lemma KeepsCount<J>(s: System<J>, l: Label<J>, o: Option<Tid>)
    requires InvOwner(s, o) && Enabled(s, l)
    requires Next(s, l).q.Valid()
    ensures var s' := Next(s, l);
      s'.count == |Counting(s')| + |s'.q.Remaining()| + |BatchOf(s', NextOwner(s, l, o))|
  {
    if InExecute(s.threads[l.t]) {
      FrameIsOwners(s, l.t, o);
      OwnerBatch(s, l, o);
    } else {
      BatchOnlyOwner(s, l, o);
    }
    CountSums(s, l, BatchOf(s, o), BatchOf(Next(s, l), NextOwner(s, l, o)));
  }

  lemma CountSums<J>(s: System<J>, l: Label<J>, b: seq<J>, b': seq<J>)
    requires Enabled(s, l) && s.q.Valid() && Next(s, l).q.Valid()
    requires s.count == |Counting(s)| + |s.q.Remaining()| + |b|
    requires match l.action
      case Take => |b'| == |b| + 1
      case Subtract => b == Top(s.threads[l.t]).batch && b' == []
      case _ => b' == b
    ensures var s' := Next(s, l); s'.count == |Counting(s')| + |s'.q.Remaining()| + |b'|
  {
    CountingNext(s, l);
    CountNext(s, l);
  }

  lemma StepKeepsInv<J>(s: System<J>, l: Label<J>, o: Option<Tid>)
    requires InvOwner(s, o) && Enabled(s, l)
    ensures InvOwner(Next(s, l), NextOwner(s, l, o))
  {
    KeepsQueueValid(s, l, o);
    KeepsThreads(s, l, o);
    KeepsSlotsDistinct(s, l, o);
    KeepsSlotsHeld(s, l, o);
    KeepsOwner(s, l, o);
    KeepsHistory(s, l, o);
    KeepsCount(s, l, o);
  }

  lemma NoOwnerNoCount<J>(s: System<J>, l: Label<J>, o: Option<Tid>)
    requires InvOwner(s, o) && Enabled(s, l)
    requires o.None? <==> s.count == 0
    requires l.action.Begin? ==> !l.action.pushOnly
    ensures NextOwner(s, l, o).None? ==> Next(s, l).count == 0
  {
    if InExecute(s.threads[l.t]) { FrameIsOwners(s, l.t, o); }
  }

  ghost predicate PushesEager<J>(s: System<J>) {
    forall t :: t in s.threads && !s.threads[t].push.NoPush? ==> !s.threads[t].push.pushOnly
  }

  lemma KeepsPushesEager<J>(s: System<J>, l: Label<J>)
    requires PushesEager(s) && Enabled(s, l) && (l.action.Begin? ==> !l.action.pushOnly)
    ensures PushesEager(Next(s, l))
  {
  }

  lemma StepKeepsEager<J>(s: System<J>, l: Label<J>, o: Option<Tid>)
    requires InvOwner(s, o) && EagerOk(s, o) && Enabled(s, l)
    requires l.action.Begin? ==> !l.action.pushOnly
    ensures EagerOk(Next(s, l), NextOwner(s, l, o))
  {
    NoOwnerNoCount(s, l, o);
    KeepsOwner(s, l, o);
    KeepsPushesEager(s, l);
  }

  ghost predicate Inv<J>(s: System<J>) {
    exists o: Option<Tid> :: InvOwner(s, o)
  }

  ghost predicate EagerInv<J>(s: System<J>) {
    exists o: Option<Tid> :: InvOwner(s, o) && EagerOk(s, o)
  }

  lemma InitInv<J>(s: System<J>)
    requires Init(s)
    ensures EagerInv(s)
  {
    assert Counting(s) == {};
    assert InvOwner(s, None) && EagerOk(s, None);
  }

  lemma {:induction false} RunInv<J>(trace: seq<System<J>>, labels: seq<Label<J>>, i: nat)
    requires IsRun(trace, labels) && Init(trace[0]) && i < |trace|
    ensures Inv(trace[i])
    ensures Eager(labels) ==> EagerInv(trace[i])
  {
    if i == 0 {
      InitInv(trace[0]);
    } else {
      RunInv(trace, labels, i - 1);
      var s, l := trace[i - 1], labels[i - 1];
      assert Enabled(s, l) && trace[i] == Next(s, l);
      var o: Option<Tid> :| InvOwner(s, o) && (Eager(labels) ==> EagerOk(s, o));
      StepKeepsInv(s, l, o);
      if Eager(labels) { StepKeepsEager(s, l, o); }
    }
  }

  /** In every state of every run at most one thread is inside `Execute`, in one activation, so the
  queue has one consumer at a time and no job runs nested in another job of the same queue. */
  lemma OneExecutor<J>(trace: seq<System<J>>, labels: seq<Label<J>>, i: nat, t: Tid, u: Tid)
    requires IsRun(trace, labels) && Init(trace[0]) && i < |trace|
    requires t in trace[i].threads && u in trace[i].threads
    ensures |trace[i].threads[t].frames| <= 1
    ensures InExecute(trace[i].threads[t]) && InExecute(trace[i].threads[u]) ==> t == u
  {
    RunInv(trace, labels, i);
    var o: Option<Tid> :| InvOwner(trace[i], o);
    assert ThreadOk(trace[i], trace[i].threads[t]);
    assert Owns(trace[i].threads[t]) <==> o == Some(t);
    assert Owns(trace[i].threads[u]) <==> o == Some(u);
  }

  /** Jobs start in head-exchange order and no push is started twice: the started jobs are always a
  prefix of the exchanged ones, whoever threw. */
  lemma StartedInExchangeOrder<J>(trace: seq<System<J>>, labels: seq<Label<J>>, i: nat)
    requires IsRun(trace, labels) && Init(trace[0]) && i < |trace|
    ensures trace[i].started <= trace[i].q.pushed
  {
    RunInv(trace, labels, i);
  }

  /** The value the executor takes is there: its load cannot be spoiled by any other thread. */
  lemma TakeNeverSpoiled<J>(trace: seq<System<J>>, labels: seq<Label<J>>, i: nat, t: Tid)
    requires IsRun(trace, labels) && Init(trace[0]) && i < |trace| && t in trace[i].threads
    requires InExecute(trace[i].threads[t]) && Top(trace[i].threads[t]).Taking?
    ensures Enabled(trace[i], Label(t, Take))
  {
    RunInv(trace, labels, i);
    var o: Option<Tid> :| InvOwner(trace[i], o);
    assert ThreadOk(trace[i], trace[i].threads[t]);
  }

  /** The executor leaves only when no push is counted and unserved, nothing is queued, and every job
  ever pushed has been started. */
  lemma LeavesOnlyWhenDone<J>(trace: seq<System<J>>, labels: seq<Label<J>>, i: nat)
    requires IsRun(trace, labels) && Init(trace[0]) && i < |labels|
    requires labels[i].action.Subtract? && !InExecute(trace[i + 1].threads[labels[i].t])
    ensures var s := trace[i + 1];
      Counting(s) == {} && s.q.popped == |s.q.pushed| && s.started == s.q.pushed && s.count == 0
  {
    var s, l := trace[i], labels[i];
    assert Enabled(s, l) && trace[i + 1] == Next(s, l);
    RunInv(trace, labels, i);
    var o: Option<Tid> :| InvOwner(s, o);
    FrameIsOwners(s, l.t, o);
    StepKeepsInv(s, l, o);
  }

  /** With eager pushes somebody owns the queue whenever anything is outstanding. */
  lemma OutstandingHasOwner<J>(trace: seq<System<J>>, labels: seq<Label<J>>, i: nat)
    requires IsRun(trace, labels) && Init(trace[0]) && Eager(labels) && i < |trace|
    ensures trace[i].count > 0 <==> exists t :: t in trace[i].threads && Owns(trace[i].threads[t])
    ensures trace[i].started != trace[i].q.pushed ==> trace[i].count > 0
  {
    RunInv(trace, labels, i);
    var s := trace[i];
    var o: Option<Tid> :| InvOwner(s, o) && EagerOk(s, o);
    if o.Some? { assert Owns(s.threads[o.value]); }
  }

  /** Jobs are outstanding and no thread is, or will become, the executor. */
  ghost predicate Stranded<J>(s: System<J>) {
    s.count > 0 && forall t :: t in s.threads ==> !Owns(s.threads[t])
  }

  lemma StepStrandsIff<J>(s: System<J>, l: Label<J>)
    requires Inv(s) && Enabled(s, l)
    ensures Stranded(Next(s, l)) <==> Stranded(s) || (l.action.Begin? && l.action.pushOnly && s.count == 0)
    ensures Stranded(s) ==> Next(s, l).started == s.started
  {
    var o: Option<Tid> :| InvOwner(s, o);
    KeepsOwner(s, l, o);
    var s', o' := Next(s, l), NextOwner(s, l, o);
    assert Owns(s.threads[l.t]) <==> o == Some(l.t);
    if o.Some? { assert Owns(s.threads[o.value]); }
    if o'.Some? { assert Owns(s'.threads[o'.value]); }
    if InExecute(s.threads[l.t]) { FrameIsOwners(s, l.t, o); }
    if o.None? && s.count == 0 && !l.action.Begin? { ZeroCountStays(s, l); }
  }

  lemma ZeroCountStays<J>(s: System<J>, l: Label<J>)
    requires InvOwner(s, None) && Enabled(s, l) && !l.action.Begin?
    ensures Next(s, l).count == s.count
  {
    if InExecute(s.threads[l.t]) { FrameIsOwners(s, l.t, None); }
  }

  /** A queue gets stranded exactly by a push-only push that finds the counter at zero, and then no
  later push, eager or not, ever gets a job of it started. */
  lemma {:induction false} StrandedIffPushOnlyOnIdle<J>(trace: seq<System<J>>, labels: seq<Label<J>>, i: nat)
    requires IsRun(trace, labels) && Init(trace[0]) && i < |trace|
    ensures Stranded(trace[i]) <==>
            exists j :: 0 <= j < i && labels[j].action.Begin? && labels[j].action.pushOnly && trace[j].count == 0
    ensures 0 < i && Stranded(trace[i - 1]) ==> trace[i].started == trace[i - 1].started
  {
    if i > 0 {
      StrandedIffPushOnlyOnIdle(trace, labels, i - 1);
      RunInv(trace, labels, i - 1);
      assert Enabled(trace[i - 1], labels[i - 1]) && trace[i] == Next(trace[i - 1], labels[i - 1]);
      StepStrandsIff(trace[i - 1], labels[i - 1]);
    }
  }

  /** A stranded queue stays stranded and starts nothing more, whatever else happens. */
  lemma {:induction false} StrandedForever<J>(trace: seq<System<J>>, labels: seq<Label<J>>, i: nat, j: nat)
    requires IsRun(trace, labels) && Init(trace[0]) && i <= j < |trace| && Stranded(trace[i])
    ensures Stranded(trace[j]) && trace[j].started == trace[i].started
    decreases j
  {
    if i < j {
      StrandedForever(trace, labels, i, j - 1);
      StrandedIffPushOnlyOnIdle(trace, labels, j - 1);
      StrandedIffPushOnlyOnIdle(trace, labels, j);
    }
  }

  /** The four steps of a push that does not enter `Execute`. */
  function PushSteps<J>(t: Tid, job: J, pushOnly: bool): seq<Label<J>> {
    [Label(t, Begin(job, pushOnly)), Label(t, Action.ExchangeHead), Label(t, Action.LinkPrev), Label(t, Decide)]
  }

  /** A system of one thread that is not in `Execute`. */
  function Alone<J>(t: Tid, count: int, q: Queue<J>, push: PushPc<J>): System<J> {
    System(count, q, map[t := Thread(push, [])], [])
  }

  function PushStates<J>(t: Tid, count: int, q: Queue<J>, job: J, pushOnly: bool): seq<System<J>> {
    var slot, pushed := |q.pushed|, q.Exchange(job);
    [Alone(t, count, q, NoPush),
     Alone(t, count + 1, q, Counted(job, count, pushOnly)),
     Alone(t, count + 1, pushed, Exchanged(slot, count, pushOnly)),
     Alone(t, count + 1, pushed.Link(slot), Linked(count, pushOnly)),
     Alone(t, count + 1, pushed.Link(slot), NoPush)]
  }

  lemma PushStep<J>(t: Tid, count: int, q: Queue<J>, push: PushPc<J>, action: Action<J>, q': Queue<J>, push': PushPc<J>)
    requires match action
      case Begin(job, pushOnly) => push.NoPush? && push' == Counted(job, count, pushOnly) && q' == q
      case ExchangeHead => push.Counted? && push' == Exchanged(|q.pushed|, push.prev, push.pushOnly) && q' == q.Exchange(push.job)
      case LinkPrev => push.Exchanged? && push' == Linked(push.prev, push.pushOnly) && q' == q.Link(push.slot)
      case Decide => push.Linked? && (push.prev != 0 || push.pushOnly) && push' == NoPush && q' == q
      case _ => false
    ensures var s := Alone(t, count, q, push);
      && Enabled(s, Label(t, action))
      && Next(s, Label(t, action)) == Alone(t, if action.Begin? then count + 1 else count, q', push')
  {
  }

  lemma PushIsRun<J>(t: Tid, count: int, q: Queue<J>, job: J, pushOnly: bool)
    requires count != 0 || pushOnly
    ensures IsRun(PushStates(t, count, q, job, pushOnly), PushSteps(t, job, pushOnly))
  {
    var slot, pushed := |q.pushed|, q.Exchange(job);
    var counted, exchanged := Counted(job, count, pushOnly), Exchanged(slot, count, pushOnly);
    var linked := Linked(count, pushOnly);
    PushStep(t, count, q, NoPush, Begin(job, pushOnly), q, counted);
    PushStep(t, count + 1, q, counted, Action.ExchangeHead, pushed, exchanged);
    PushStep(t, count + 1, pushed, exchanged, Action.LinkPrev, pushed.Link(slot), linked);
    PushStep(t, count + 1, pushed.Link(slot), linked, Decide, pushed.Link(slot), NoPush);
    FourSteps(PushStates(t, count, q, job, pushOnly), PushSteps(t, job, pushOnly));
  }

  lemma FourSteps<J>(trace: seq<System<J>>, labels: seq<Label<J>>)
    requires |trace| == 5 && |labels| == 4
    requires Enabled(trace[0], labels[0]) && trace[1] == Next(trace[0], labels[0])
    requires Enabled(trace[1], labels[1]) && trace[2] == Next(trace[1], labels[1])
    requires Enabled(trace[2], labels[2]) && trace[3] == Next(trace[2], labels[2])
    requires Enabled(trace[3], labels[3]) && trace[4] == Next(trace[3], labels[3])
    ensures IsRun(trace, labels)
  {
    forall i | 0 <= i < 4 ensures Enabled(trace[i], labels[i]) && trace[i + 1] == Next(trace[i], labels[i]) {
      assert i == 0 || i == 1 || i == 2 || i == 3;
    }
  }

  lemma RunsConcat<J>(a: seq<System<J>>, la: seq<Label<J>>, b: seq<System<J>>, lb: seq<Label<J>>)
    requires IsRun(a, la) && IsRun(b, lb) && a[|la|] == b[0]
    ensures IsRun(a[..|la|] + b, la + lb)
  {
    var trace, labels := a[..|la|] + b, la + lb;
    forall i | 0 <= i < |labels| ensures Enabled(trace[i], labels[i]) && trace[i + 1] == Next(trace[i], labels[i]) {
      if i < |la| {
        assert trace[i] == a[i] && trace[i + 1] == a[i + 1] && labels[i] == la[i];
      } else {
        assert trace[i] == b[i - |la|] && labels[i] == lb[i - |la|];
      }
    }
  }

  /** How the queue gets stranded: a push-only push onto an idle queue. A second push that declines
  nothing completes, but by StrandedForever neither job is ever started. */
  lemma PushOnlyStrands<J>(t: Tid, first: J, second: J) returns (trace: seq<System<J>>, labels: seq<Label<J>>)
    ensures IsRun(trace, labels) && Init(trace[0])
    ensures labels == PushSteps(t, first, true) + PushSteps(t, second, false)
    ensures trace[8] == Alone(t, 2, Queue([first, second], 0, {}), NoPush) && Stranded(trace[8])
  {
    PushIsRun(t, 0, Empty(), first, true);
    PushIsRun(t, 1, Queue([first], 0, {}), second, false);
    var a, b := PushStates(t, 0, Empty(), first, true), PushStates(t, 1, Queue([first], 0, {}), second, false);
    assert a[4].q == b[0].q && b[4].q == Queue([first, second], 0, {});
    labels := PushSteps(t, first, true) + PushSteps(t, second, false);
    trace := a[..4] + b;
    RunsConcat(a, PushSteps(t, first, true), b, PushSteps(t, second, false));
  }

  /** No push is between its counter increment and its link. */
  ghost predicate Settled<J>(s: System<J>) {
    Counting(s) == {} && s.q.unlinked == {}
  }

  function Deciding<J>(s: System<J>): set<Tid> {
    set t | t in s.threads && s.threads[t].push.Linked?
  }

  function FrameCost<J>(f: Frame<J>, queued: bool): int {
    match f
    case Loading(b) => 2 * |b| + 2
    case Taking(b) => 2 * |b| + 1
    case Running(b, done, inJob) => 2 * (|b| - done) + 1 - (if inJob then 1 else 0) + (if queued then 2 else 0)
  }

  function OwnerCost<J>(s: System<J>, o: Option<Tid>): int {
    if o.Some? && o.value in s.threads && InExecute(s.threads[o.value])
    then FrameCost(Top(s.threads[o.value]), s.q.popped < |s.q.pushed|) else 0
  }

  /** How many steps a settled system can still make without a new push. */
  function Work<J>(s: System<J>, o: Option<Tid>): int {
    6 * (|s.q.pushed| - s.q.popped) + 3 * |Deciding(s)| + OwnerCost(s, o)
  }

  lemma DecidingNext<J>(s: System<J>, l: Label<J>)
    requires Enabled(s, l) && !l.action.Begin? && Settled(s) && !l.action.LinkPrev?
    ensures Deciding(Next(s, l)) == if l.action.Decide? then Deciding(s) - {l.t} else Deciding(s)
    ensures l.action.Decide? ==> l.t in Deciding(s)
  {
    assert l.t !in Counting(s);
  }

  lemma SettledStays<J>(s: System<J>, l: Label<J>, o: Option<Tid>)
    requires InvOwner(s, o) && Enabled(s, l) && !l.action.Begin? && Settled(s)
    ensures Settled(Next(s, l))
    ensures !l.action.LinkPrev? && !l.action.ExchangeHead?
  {
    assert ThreadOk(s, s.threads[l.t]);
    CountingNext(s, l);
  }

  lemma OwnerCostDrops<J>(s: System<J>, l: Label<J>, o: Option<Tid>)
    requires InvOwner(s, o) && Enabled(s, l) && !l.action.Begin? && Settled(s) && InExecute(s.threads[l.t])
    ensures var s' := Next(s, l);
      6 * (|s'.q.pushed| - s'.q.popped) + OwnerCost(s', NextOwner(s, l, o)) <=
      6 * (|s.q.pushed| - s.q.popped) + OwnerCost(s, o) - if l.action.Decide? then 0 else 1
  {
    FrameIsOwners(s, l.t, o);
    SettledStays(s, l, o);
    assert ThreadOk(s, s.threads[l.t]);
    assert |s.q.Remaining()| == |s.q.pushed| - s.q.popped;
  }

  lemma WorkDrops<J>(s: System<J>, l: Label<J>, o: Option<Tid>)
    requires InvOwner(s, o) && Enabled(s, l) && !l.action.Begin? && Settled(s)
    ensures 0 <= Work(Next(s, l), NextOwner(s, l, o)) < Work(s, o)
  {
    SettledStays(s, l, o);
    DecidingNext(s, l);
    StepKeepsInv(s, l, o);
    OwnerCostSign(Next(s, l), NextOwner(s, l, o));
    if InExecute(s.threads[l.t]) {
      OwnerCostDrops(s, l, o);
    } else {
      WinnerCost(s, l, o);
    }
  }

  lemma WinnerCost<J>(s: System<J>, l: Label<J>, o: Option<Tid>)
    requires InvOwner(s, o) && Enabled(s, l) && l.action.Decide? && !InExecute(s.threads[l.t])
    ensures Next(s, l).q == s.q && OwnerCost(Next(s, l), o) <= OwnerCost(s, o) + 2
  {
    assert Owns(s.threads[l.t]) <==> o == Some(l.t);
  }

  lemma OwnerCostSign<J>(s: System<J>, o: Option<Tid>)
    requires InvOwner(s, o)
    ensures OwnerCost(s, o) >= 0
  {
    if o.Some? { assert ThreadOk(s, s.threads[o.value]); }
  }

  lemma {:induction false} ClosedRunBounded<J>(trace: seq<System<J>>, labels: seq<Label<J>>, i: nat, o: Option<Tid>)
    requires IsRun(trace, labels) && i < |trace|
    requires InvOwner(trace[i], o) && Settled(trace[i])
    requires forall k :: i <= k < |labels| ==> !labels[k].action.Begin?
    ensures |labels| - i <= Work(trace[i], o)
    decreases |labels| - i
  {
    OwnerCostSign(trace[i], o);
    if i < |labels| {
      var s, l := trace[i], labels[i];
      assert Enabled(s, l) && trace[i + 1] == Next(s, l);
      StepKeepsInv(s, l, o);
      SettledStays(s, l, o);
      WorkDrops(s, l, o);
      ClosedRunBounded(trace, labels, i + 1, NextOwner(s, l, o));
    }
  }

  lemma WorkBound<J>(s: System<J>, o: Option<Tid>)
    requires InvOwner(s, o) && Settled(s)
    ensures Work(s, o) <= 6 * s.count + 3 * |s.threads| + 3
  {
    assert s.threads.Keys == Deciding(s) + (s.threads.Keys - Deciding(s));
    assert |s.threads| == |s.threads.Keys|;
    if o.Some? { assert ThreadOk(s, s.threads[o.value]); }
  }

  /** Once every push that began has linked and no new one begins, the system stops: whichever way its
  threads are scheduled, they make at most so many more steps. */
  lemma DrainTerminates<J>(trace: seq<System<J>>, labels: seq<Label<J>>, i: nat)
    requires IsRun(trace, labels) && Init(trace[0]) && i < |trace| && Settled(trace[i])
    requires forall k :: i <= k < |labels| ==> !labels[k].action.Begin?
    ensures |labels| - i <= 6 * trace[i].count + 3 * |trace[i].threads| + 3
  {
    RunInv(trace, labels, i);
    var o: Option<Tid> :| InvOwner(trace[i], o);
    ClosedRunBounded(trace, labels, i, o);
    WorkBound(trace[i], o);
  }

  /** The step an owner can make in a settled system. */
  function OwnersAction<J>(th: Thread<J>): Action<J> {
    if th.push.Linked? || !InExecute(th) then Decide
    else
      match Top(th)
      case Loading(_) => Load
      case Taking(_) => Take
      case Running(b, done, inJob) => if inJob then EndJob(false) else if done < |b| then StartJob else Subtract
  }

  lemma NoPushUnderWay<J>(s: System<J>)
    requires s.q.Valid() && SlotsHeld(s)
    requires forall l: Label<J> :: Enabled(s, l) ==> l.action.Begin?
    ensures Settled(s)
  {
    forall t | t in s.threads ensures !s.threads[t].push.Counted? && !s.threads[t].push.Exchanged? {
      assert Enabled(s, Label(t, Action.ExchangeHead)) <==> s.threads[t].push.Counted?;
      assert Enabled(s, Label(t, Action.LinkPrev)) <==> s.threads[t].push.Exchanged?;
    }
  }

  /** It stops nowhere else than at the end: where no step but a new push is possible, every job ever
  pushed has been executed, in exchange order, and the queue is idle again. */
  lemma StopsOnlyWhenDrained<J>(trace: seq<System<J>>, labels: seq<Label<J>>, i: nat)
    requires IsRun(trace, labels) && Init(trace[0]) && Eager(labels) && i < |trace|
    requires forall l: Label<J> :: Enabled(trace[i], l) ==> l.action.Begin?
    ensures trace[i].count == 0 && trace[i].started == trace[i].q.pushed && trace[i].q.popped == |trace[i].q.pushed|
  {
    var s := trace[i];
    RunInv(trace, labels, i);
    var o: Option<Tid> :| InvOwner(s, o) && EagerOk(s, o);
    NoPushUnderWay(s);
    if o.Some? {
      OwnerCanStep(s, o.value);
    }
  }

  lemma OwnerCanStep<J>(s: System<J>, t: Tid)
    requires Settled(s) && s.q.Valid() && t in s.threads && ThreadOk(s, s.threads[t]) && Owns(s.threads[t])
    ensures Enabled(s, Label(t, OwnersAction(s.threads[t])))
  {
    assert t !in Counting(s);
  }

  ghost predicate Gathering<J>(s: System<J>, t: Tid) {
    && t in s.threads && s.threads[t].push.NoPush? && InExecute(s.threads[t])
    && (Top(s.threads[t]).Taking? || Top(s.threads[t]).Loading?)
  }

  lemma GatheringStep<J>(s: System<J>, l: Label<J>, t: Tid)
    requires Enabled(s, l) && Gathering(s, t) && l != Label(t, Load)
    ensures Gathering(Next(s, l), t)
  {
  }

  lemma {:induction false} GatheringRun<J>(trace: seq<System<J>>, labels: seq<Label<J>>, i: nat, j: nat, t: Tid)
    requires IsRun(trace, labels) && i <= j < |trace| && Gathering(trace[i], t)
    requires forall k :: i <= k < j ==> labels[k] != Label(t, Load)
    ensures Gathering(trace[j], t)
    decreases j
  {
    if i < j {
      GatheringRun(trace, labels, i, j - 1, t);
      assert Enabled(trace[j - 1], labels[j - 1]) && trace[j - 1 + 1] == Next(trace[j - 1], labels[j - 1]);
      GatheringStep(trace[j - 1], labels[j - 1], t);
    }
  }

  /** A batch is all that could be popped: the last load before its first job found nothing. */
  lemma BatchTakesAll<J>(trace: seq<System<J>>, labels: seq<Label<J>>, i: nat, j: nat, t: Tid)
    requires IsRun(trace, labels) && i < j < |labels| && labels[i] == Label(t, Load)
    requires labels[j] == Label(t, StartJob) || labels[j] == Label(t, Subtract)
    requires forall k :: i < k < j ==> labels[k] != Label(t, Load)
    ensures !trace[i].q.Poppable()
  {
    assert Enabled(trace[i], labels[i]) && trace[i + 1] == Next(trace[i], labels[i]) && Enabled(trace[j], labels[j]);
    if trace[i].q.Poppable() { GatheringRun(trace, labels, i + 1, j, t); }
  }

  /** No step of a push or of the executor waits for another thread: in every reachable state each thread
  can make the step it has come to, and a thread outside the queue or inside a job can push. */
  lemma NobodyWaits<J>(trace: seq<System<J>>, labels: seq<Label<J>>, i: nat, t: Tid)
    requires IsRun(trace, labels) && Init(trace[0]) && i < |trace| && t in trace[i].threads
    ensures var s, th := trace[i], trace[i].threads[t];
      && (th.push.Counted? ==> Enabled(s, Label(t, Action.ExchangeHead)))
      && (th.push.Exchanged? ==> Enabled(s, Label(t, Action.LinkPrev)))
      && (th.push.Linked? ==> Enabled(s, Label(t, Decide)))
      && (th.push.NoPush? && !InExecute(th) ==> forall job: J, pushOnly: bool :: Enabled(s, Label(t, Begin(job, pushOnly))))
      && (th.push.NoPush? && InExecute(th) ==>
            match Top(th)
            case Loading(_) => Enabled(s, Label(t, Load))
            case Taking(_) => Enabled(s, Label(t, Take))
            case Running(batch, done, inJob) =>
              if inJob then
                && Enabled(s, Label(t, EndJob(false))) && Enabled(s, Label(t, EndJob(true)))
                && forall job: J, pushOnly: bool :: Enabled(s, Label(t, Begin(job, pushOnly)))
              else Enabled(s, Label(t, if done < |batch| then StartJob else Subtract)))
  {
    RunInv(trace, labels, i);
    var o: Option<Tid> :| InvOwner(trace[i], o);
    assert ThreadOk(trace[i], trace[i].threads[t]);
  }
}
