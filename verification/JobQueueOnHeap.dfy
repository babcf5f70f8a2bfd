/** The two layers of job scheduling together: the queue steps that the threads of a protocol run make
are a schedule of the linked list, whoever the executor is at the time. */
module JobQueueOnHeap {
  import opened Options
  import opened MpscQueue
  import opened JobQueueProtocol
  import opened LockFreeQueue

  /** What a step of a thread does to the queue: at most one queue step. */
  function OpOf<J>(s: System<J>, l: Label<J>): seq<Op<J>>
    requires l.t in s.threads
  {
    var push := s.threads[l.t].push;
    match l.action
    case ExchangeHead => if push.Counted? then [Op.ExchangeHead(l.t, push.job)] else []
    case LinkPrev => if push.Exchanged? then [Op.LinkPrev(push.slot)] else []
    case Load => [PopLoad]
    case Take => [PopTake]
    case _ => []
  }

  predicate ThreadsKnown<J>(trace: seq<System<J>>, labels: seq<Label<J>>) {
    |labels| < |trace| && forall i :: 0 <= i < |labels| ==> labels[i].t in trace[i].threads
  }

  /** The queue steps of the first `i` steps of a run. */
  function Schedule<J>(trace: seq<System<J>>, labels: seq<Label<J>>, i: nat): seq<Op<J>>
    requires ThreadsKnown(trace, labels) && i <= |labels|
  {
    if i == 0 then [] else Schedule(trace, labels, i - 1) + OpOf(trace[i - 1], labels[i - 1])
  }

  /** Some thread is inside a pop whose load has succeeded. */
  ghost predicate SomeoneTaking<J>(s: System<J>) {
    exists t :: t in s.threads && InExecute(s.threads[t]) && Top(s.threads[t]).Taking?
  }

  ghost predicate Projects<J>(s: System<J>, h: History<J>) {
    h.q == s.q && (h.loaded <==> SomeoneTaking(s))
  }

  function StepAll<J>(h: History<J>, ops: seq<Op<J>>): History<J>
    requires |ops| <= 1
  {
    if ops == [] then h else Step(h, ops[0])
  }

  /** Only the owner can be taking. */
  predicate OwnerTaking<J>(s: System<J>, o: Option<Tid>) {
    o.Some? && o.value in s.threads && InExecute(s.threads[o.value]) && Top(s.threads[o.value]).Taking?
  }

  lemma TakingIsOwners<J>(s: System<J>, o: Option<Tid>)
    requires InvOwner(s, o)
    ensures SomeoneTaking(s) <==> OwnerTaking(s, o)
    ensures SomeoneTaking(s) ==> s.q.Poppable()
  {
    if t :| t in s.threads && InExecute(s.threads[t]) && Top(s.threads[t]).Taking? {
      FrameIsOwners(s, t, o);
      assert ThreadOk(s, s.threads[t]);
    }
  }

  lemma NextTaking<J>(s: System<J>, l: Label<J>, o: Option<Tid>)
    requires InvOwner(s, o) && Enabled(s, l)
    ensures OwnerTaking(Next(s, l), NextOwner(s, l, o)) <==>
      if l.action.Load? then s.q.Poppable() else OwnerTaking(s, o) && !l.action.Take?
  {
    assert ThreadOk(s, s.threads[l.t]);
    if InExecute(s.threads[l.t]) {
      FrameIsOwners(s, l.t, o);
    } else {
      assert Owns(s.threads[l.t]) <==> o == Some(l.t);
    }
  }

  lemma OpEffect<J>(s: System<J>, l: Label<J>, h: History<J>)
    requires Enabled(s, l) && h.q == s.q && (l.action.Take? ==> h.loaded)
    ensures StepAll(h, OpOf(s, l)).q == Next(s, l).q
    ensures StepAll(h, OpOf(s, l)).loaded <==> if l.action.Load? then s.q.Poppable() else h.loaded && !l.action.Take?
  {
    QueueSteps(s, l);
  }

  lemma StepProjects<J>(s: System<J>, l: Label<J>, o: Option<Tid>, h: History<J>)
    requires InvOwner(s, o) && Enabled(s, l) && Projects(s, h)
    ensures Projects(Next(s, l), StepAll(h, OpOf(s, l)))
  {
    StepKeepsInv(s, l, o);
    TakingIsOwners(s, o);
    TakingIsOwners(Next(s, l), NextOwner(s, l, o));
    NextTaking(s, l, o);
    if l.action.Take? {
      FrameIsOwners(s, l.t, o);
    }
    OpEffect(s, l, h);
  }

  lemma RunHasThreads<J>(trace: seq<System<J>>, labels: seq<Label<J>>)
    requires IsRun(trace, labels)
    ensures ThreadsKnown(trace, labels)
  {
    forall i | 0 <= i < |labels| ensures labels[i].t in trace[i].threads {
      assert Enabled(trace[i], labels[i]);
    }
  }

  /** The queue of a run is at every time the queue after the run's queue steps, and a load counts as
  pending exactly while the executor of the moment is inside a pop. */
  lemma {:induction false} RunIsSchedule<J>(trace: seq<System<J>>, labels: seq<Label<J>>, i: nat)
    requires IsRun(trace, labels) && Init(trace[0]) && i <= |labels|
    ensures ThreadsKnown(trace, labels) && Projects(trace[i], Replay(Schedule(trace, labels, i)))
  {
    RunHasThreads(trace, labels);
    if i > 0 {
      RunIsSchedule(trace, labels, i - 1);
      RunInv(trace, labels, i - 1);
      var s, l, ops := trace[i - 1], labels[i - 1], Schedule(trace, labels, i - 1);
      assert Enabled(s, l) && trace[i] == Next(s, l);
      var o: Option<Tid> :| InvOwner(s, o);
      StepProjects(s, l, o, Replay(ops));
      ReplayMore(ops, OpOf(s, l));
    }
  }

  lemma ReplayMore<J>(ops: seq<Op<J>>, more: seq<Op<J>>)
    requires |more| <= 1
    ensures Replay(ops + more) == StepAll(Replay(ops), more)
  {
    if more == [] {
      assert ops + more == ops;
    } else {
      assert (ops + more)[..|ops|] == ops;
    }
  }

  /** Runs the queue steps of a protocol run on the linked list. Although the consumer changes from
  thread to thread, the list holds what the protocol says, and nothing that a producer or the executor
  still has a pointer to has been deleted. */
  method RunOnHeap<J>(trace: seq<System<J>>, labels: seq<Label<J>>) returns (ts: Threads<J>)
    requires IsRun(trace, labels) && Init(trace[0])
    ensures fresh(ts) && ts.Valid() && ts.f.q == trace[|labels|].q
    ensures ts.loaded != null <==> SomeoneTaking(trace[|labels|])
    ensures ts.out == trace[|labels|].q.pushed[..|ts.out|] && trace[|labels|].started <= ts.out
    ensures HeldLive(ts) && ChainWhole(ts)
  {
    RunIsSchedule(trace, labels, |labels|);
    ts := RunSchedule(Schedule(trace, labels, |labels|));
    ReplayConsistent(Schedule(trace, labels, |labels|));
    StartedAreTaken(trace, labels, |labels|);
  }

  lemma StartedAreTaken<J>(trace: seq<System<J>>, labels: seq<Label<J>>, i: nat)
    requires IsRun(trace, labels) && Init(trace[0]) && i < |trace|
    ensures trace[i].q.popped <= |trace[i].q.pushed|
    ensures trace[i].started <= trace[i].q.pushed[..trace[i].q.popped]
  {
    RunInv(trace, labels, i);
  }
}
