/** `JobQueue::Push` and `JobQueue::Execute` as written, run by one thread whose jobs push more jobs to
the queue they run on. What other threads may do in between is the subject of JobQueueProtocol. */
module JobQueue {
  import opened Options
  import opened MpscQueue
  import opened LockFreeQueue

  /** A job pushes `spawns` to its own queue, in order, and then returns or throws. A job that throws
  half-way is one with fewer spawns. */
  datatype Job = Job(id: nat, spawns: seq<Job>, throws: bool)

  function Size(j: Job): nat
    decreases j, 1
  {
    1 + Sizes(j.spawns)
  }

  function Sizes(js: seq<Job>): nat
    decreases js, 0
  {
    if js == [] then 0 else Size(js[0]) + Sizes(js[1..])
  }

  /** Everything a batch pushes, in the order in which it pushes it. */
  function Spawned(js: seq<Job>): seq<Job> {
    if js == [] then [] else Spawned(js[..|js| - 1]) + js[|js| - 1].spawns
  }

  lemma {:induction false} SizesConcat(a: seq<Job>, b: seq<Job>)
    ensures Sizes(a + b) == Sizes(a) + Sizes(b)
  {
    if a == [] {
      assert a + b == b;
    } else {
      SizesConcat(a[1..], b);
      assert (a + b)[1..] == a[1..] + b;
    }
  }

  lemma {:induction false} SpawnedSize(js: seq<Job>)
    ensures Sizes(Spawned(js)) + |js| == Sizes(js)
  {
    if js != [] {
      var front, last := js[..|js| - 1], js[|js| - 1];
      SpawnedSize(front);
      SizesConcat(Spawned(front), last.spawns);
      SizesConcat(front, [last]);
      assert js == front + [last];
      assert Sizes([last]) == Size(last) + Sizes([]);
    }
  }

  /** The order in which batches are run: a batch, then everything it pushed, and so on. */
  function LevelOrder(js: seq<Job>): seq<Job>
    decreases Sizes(js)
  {
    if js == [] then []
    else
      SpawnedSize(js);
      js + LevelOrder(Spawned(js))
  }

  /** The order of a plain queue that pops and runs one job at a time. */
  function Fifo(js: seq<Job>): seq<Job>
    decreases Sizes(js)
  {
    if js == [] then []
    else
      SizesConcat(js[1..], js[0].spawns);
      assert Sizes(js) == Size(js[0]) + Sizes(js[1..]);
      [js[0]] + Fifo(js[1..] + js[0].spawns)
  }

  /** Every job of the trees, parents before children, without regard to the queue. */
  function AllJobs(js: seq<Job>): seq<Job>
    decreases js
  {
    if js == [] then [] else [js[0]] + AllJobs(js[0].spawns) + AllJobs(js[1..])
  }

  lemma {:induction false} SpawnedCons(j: Job, js: seq<Job>)
    ensures Spawned([j] + js) == j.spawns + Spawned(js)
  {
    if js == [] {
      assert [j] + js == [j] && Spawned([]) == [];
    } else {
      var front := js[..|js| - 1];
      SpawnedCons(j, front);
      assert ([j] + js)[..|js|] == [j] + front;
    }
  }

  lemma Associates<T>(a: seq<T>, b: seq<T>, c: seq<T>)
    ensures a + (b + c) == (a + b) + c
  {
  }

  lemma FifoCons(j: Job, rest: seq<Job>)
    ensures Fifo([j] + rest) == [j] + Fifo(rest + j.spawns)
  {
    assert ([j] + rest)[1..] == rest;
  }

  lemma {:induction false} FifoRunsBatch(js: seq<Job>, ks: seq<Job>)
    ensures Fifo(js + ks) == js + Fifo(ks + Spawned(js))
    decreases js
  {
    if js == [] {
      assert js + ks == ks && ks + Spawned(js) == ks;
    } else {
      var j, rest := js[0], js[1..];
      assert js == [j] + rest;
      Associates([j], rest, ks);
      FifoCons(j, rest + ks);
      Associates(rest, ks, j.spawns);
      FifoRunsBatch(rest, ks + j.spawns);
      SpawnedCons(j, rest);
      Associates(ks, j.spawns, Spawned(rest));
      Associates([j], rest, Fifo(ks + Spawned(js)));
    }
  }

  /** Popping everything and running it as a batch gives the same order as popping one by one. */
  lemma {:induction false} LevelOrderIsFifo(js: seq<Job>)
    ensures LevelOrder(js) == Fifo(js)
    decreases Sizes(js)
  {
    if js != [] {
      SpawnedSize(js);
      LevelOrderIsFifo(Spawned(js));
      FifoRunsBatch(js, []);
      assert js + [] == js && [] + Spawned(js) == Spawned(js);
    }
  }

  lemma AllJobsCons(j: Job, rest: seq<Job>)
    ensures AllJobs([j] + rest) == [j] + AllJobs(j.spawns) + AllJobs(rest)
  {
    assert ([j] + rest)[1..] == rest;
  }

  lemma {:induction false} AllJobsConcat(a: seq<Job>, b: seq<Job>)
    ensures AllJobs(a + b) == AllJobs(a) + AllJobs(b)
    decreases a
  {
    if a == [] {
      assert a + b == b;
      assert AllJobs(a) == [];
    } else {
      var j, rest := a[0], a[1..];
      assert a == [j] + rest;
      Associates([j], rest, b);
      AllJobsCons(j, rest + b);
      AllJobsCons(j, rest);
      AllJobsConcat(rest, b);
      Associates([j] + AllJobs(j.spawns), AllJobs(rest), AllJobs(b));
    }
  }

  /** Every job of every tree is run exactly once, whichever of them throw. */
  lemma {:induction false} EveryJobRunsOnce(js: seq<Job>)
    ensures multiset(LevelOrder(js)) == multiset(AllJobs(js))
    decreases Sizes(js)
  {
    LevelOrderIsFifo(js);
    if js != [] {
      var rest := js[1..] + js[0].spawns;
      SizesConcat(js[1..], js[0].spawns);
      assert Sizes(js) == Size(js[0]) + Sizes(js[1..]);
      EveryJobRunsOnce(rest);
      LevelOrderIsFifo(rest);
      AllJobsConcat(js[1..], js[0].spawns);
      assert AllJobs(js) == [js[0]] + AllJobs(js[0].spawns) + AllJobs(js[1..]);
    }
  }

  class JobQueue {
    const jobs: LockFreeQueue<Job>
    var jobCount: int
    ghost var log: seq<Job>    // jobs started, in order
    ghost var active: nat      // activations of Execute on the stack

    ghost predicate Core()
      reads this, jobs, jobs.Repr
    {
      jobs.Valid() && this !in jobs.Repr && jobs.q.unlinked == {} && active <= 1
    }

    ghost function Pending(): seq<Job>
      reads jobs, jobs.Repr
      requires jobs.Valid()
    {
      jobs.q.Remaining()
    }

    /** The counter covers what is queued; inside `Execute` it is positive, outside it covers nothing
    else. */
    ghost predicate Valid()
      reads this, jobs, jobs.Repr
    {
      && Core() && |Pending()| <= jobCount
      && (if active == 0 then jobCount == |Pending()| else jobCount > 0)
    }

    constructor ()
      ensures Valid() && fresh(jobs.Repr)
      ensures log == [] && active == 0
    {
      jobs := new LockFreeQueue<Job>();
      jobCount, log, active := 0, [], 0;
    }

    /** The first half of a push: count, then queue. */
    method Enqueue(job: Job) returns (prevCount: int)
      requires Valid()
      modifies this, jobs.Repr
      ensures Core() && active == old(active) && log == old(log)
      ensures fresh(jobs.Repr - old(jobs.Repr))
      ensures prevCount == old(jobCount) && jobCount == prevCount + 1
      ensures Pending() == old(Pending()) + [job]
    {
      prevCount := jobCount;
      jobCount := jobCount + 1;
      jobs.Push(job);
    }

    /** Queues the job. If nothing was counted and the caller does not decline, it also runs it, with
    all it gives rise to, before returning. */
    method Push(job: Job, pushOnly: bool)
      requires Valid()
      modifies this, jobs.Repr
      ensures Valid() && active == old(active)
      ensures fresh(jobs.Repr - old(jobs.Repr))
      ensures old(jobCount) == 0 && !pushOnly ==> log == old(log) + LevelOrder([job]) && jobCount == 0
      ensures old(jobCount) > 0 || pushOnly ==>
        log == old(log) && jobCount == old(jobCount) + 1 && Pending() == old(Pending()) + [job]
      decreases if jobCount == 0 then 3 else 0
    {
      var prevCount := Enqueue(job);
      if prevCount == 0 && !pushOnly {
        Execute();
      }
    }

    /** The body of one job: its pushes land behind everything queued and never start a second drain. */
    method Run(j: Job) returns (threw: bool)
      requires Valid() && active == 1
      modifies this, jobs.Repr
      ensures Valid() && active == 1
      ensures fresh(jobs.Repr - old(jobs.Repr))
      ensures log == old(log) + [j] && Pending() == old(Pending()) + j.spawns
      ensures jobCount == old(jobCount) + |j.spawns|
      ensures threw == j.throws
      decreases 1
    {
      log := log + [j];
      for i := 0 to |j.spawns|
        invariant Valid() && active == 1
        invariant fresh(jobs.Repr - old(jobs.Repr))
        invariant log == old(log) + [j] && Pending() == old(Pending()) + j.spawns[..i]
        invariant jobCount == old(jobCount) + i
      {
        Push(j.spawns[i], false);
      }
      threw := j.throws;
    }

    method PopOne() returns (job: Option<Job>)
      requires Valid() && active == 1
      modifies jobs.Repr
      ensures Valid() && jobs.Repr == old(jobs.Repr)
      ensures job.None? ==> Pending() == old(Pending()) == []
      ensures job.Some? ==> old(Pending()) == [job.value] + Pending()
    {
      job := jobs.Pop();
    }

    /** Pops until a pop fails. */
    method PopAll() returns (batch: seq<Job>)
      requires Valid() && active == 1
      modifies this, jobs.Repr
      ensures Valid() && active == old(active) && log == old(log) && jobCount == old(jobCount)
      ensures jobs.Repr == old(jobs.Repr)
      ensures batch == old(Pending()) && Pending() == []
    {
      batch := [];
      ghost var all := Pending();
      while true
        invariant Valid() && active == old(active) && log == old(log) && jobCount == old(jobCount)
        invariant jobs.Repr == old(jobs.Repr)
        invariant batch + Pending() == all
        decreases |Pending()|
      {
        var job := PopOne();
        if job.None? {
          break;
        }
        Associates(batch, [job.value], Pending());
        batch := batch + [job.value];
      }
    }

    /** Runs the batch; a job that throws is dropped and the next one runs. */
    method RunBatch(batch: seq<Job>)
      requires Valid() && active == 1 && Pending() == []
      modifies this, jobs.Repr
      ensures Valid() && active == 1
      ensures fresh(jobs.Repr - old(jobs.Repr))
      ensures log == old(log) + batch && Pending() == Spawned(batch)
      ensures jobCount == old(jobCount) + |Pending()|
      decreases 2, 0
    {
      for i := 0 to |batch|
        invariant Valid() && active == 1
        invariant fresh(jobs.Repr - old(jobs.Repr))
        invariant log == old(log) + batch[..i] && Pending() == Spawned(batch[..i])
        invariant jobCount == old(jobCount) + |Pending()|
      {
        var threw := Run(batch[i]);
        assert batch[..i + 1][..i] == batch[..i];
      }
      assert batch[..|batch|] == batch;
    }

    /** One turn of the outer loop: pop everything, run it, subtract. */
    method RunRound() returns (last: bool)
      requires Core() && active == 1 && jobCount == |Pending()| > 0
      modifies this, jobs.Repr
      ensures Core() && active == 1 && jobCount == |Pending()|
      ensures fresh(jobs.Repr - old(jobs.Repr))
      ensures log == old(log + Pending()) && Pending() == old(Spawned(Pending()))
      ensures last <==> Pending() == []
      decreases 2, 1
    {
      var batch := PopAll();
      RunBatch(batch);
      var remaining := jobCount;
      jobCount := jobCount - |batch|;
      last := remaining == |batch|;
    }

    /** A turn leaves the same jobs to be run in the same order, and fewer of them. */
    method RunNext() returns (last: bool)
      requires Core() && active == 1 && jobCount == |Pending()| > 0
      modifies this, jobs.Repr
      ensures Core() && active == 1 && jobCount == |Pending()|
      ensures fresh(jobs.Repr - old(jobs.Repr))
      ensures log + LevelOrder(Pending()) == old(log + LevelOrder(Pending()))
      ensures Sizes(Pending()) < old(Sizes(Pending()))
      ensures last <==> jobCount == 0
      decreases 2, 2
    {
      LevelOrderStep(log, Pending());
      last := RunRound();
    }

    /** The loop of `Execute`. */
    method Drain()
      requires Core() && active == 1 && jobCount == |Pending()| > 0
      modifies this, jobs.Repr
      ensures Core() && active == 1 && jobCount == 0 && Pending() == []
      ensures fresh(jobs.Repr - old(jobs.Repr))
      ensures log == old(log + LevelOrder(Pending()))
      decreases 2, 3
    {
      ghost var all := log + LevelOrder(Pending());
      var last := false;
      while !last
        invariant Core() && active == 1 && jobCount == |Pending()|
        invariant last <==> jobCount == 0
        invariant fresh(jobs.Repr - old(jobs.Repr))
        invariant log + LevelOrder(Pending()) == all
        decreases Sizes(Pending()), !last
      {
        last := RunNext();
      }
    }

    method Execute()
      requires Core() && active == 0 && jobCount == |Pending()| > 0
      modifies this, jobs.Repr
      ensures Valid() && active == 0 && jobCount == 0
      ensures fresh(jobs.Repr - old(jobs.Repr))
      ensures log == old(log + LevelOrder(Pending()))
      decreases 2, 4
    {
      active := active + 1;
      Drain();
      active := active - 1;
    }
  }

  lemma LevelOrderStep(done: seq<Job>, pending: seq<Job>)
    requires pending != []
    ensures done + LevelOrder(pending) == done + pending + LevelOrder(Spawned(pending))
    ensures Sizes(Spawned(pending)) < Sizes(pending)
  {
    SpawnedSize(pending);
  }
}
