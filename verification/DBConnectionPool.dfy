/** The pool as an object: its critical sections change the fields in place, each as the step of DBPool
that it is. */
module DBConnectionPools {
  import opened DBPool

  class DBConnection {
    const id: nat
    var open: bool
    var lastUsed: nat

    constructor (id: nat)
      ensures this.id == id && !open
    {
      this.id := id;
      open := false;
    }

    /** `answer` is what the server says. */
    method Connect(answer: bool, now: nat) returns (ok: bool)
      modifies this
      ensures ok == answer && open == answer
      ensures lastUsed == if ok then now else old(lastUsed)
    {
      open := answer;
      if answer { lastUsed := now; }
      return answer;
    }

    method TouchLastUsedTick(now: nat)
      modifies this`lastUsed
      ensures lastUsed == now
    {
      lastUsed := now;
    }

    method Disconnect()
      modifies this`open
      ensures !open
    {
      open := false;
    }
  }

  /** Milliseconds since the last use, in the 64-bit unsigned arithmetic of the tick counter. */
  function IdleMs(now: nat, lastUsed: nat): nat {
    (now - lastUsed) % 0x1_0000_0000_0000_0000
  }

  /** Whether one of the first `n` reconnects succeeds. */
  predicate AnySucceeds(answers: seq<bool>, n: int) {
    exists k :: 0 <= k < n && k < |answers| && answers[k]
  }

  /** `d` is a number of milliseconds that may have passed since the last use, in 64-bit ticks. */
  predicate Elapsed(d: int, lastUsed: nat, now: nat) {
    0 <= d < 0x1_0000_0000_0000_0000 && (lastUsed + d - now) % 0x1_0000_0000_0000_0000 == 0
  }

  /** The tick counter says which it is, even if it wrapped around once since the last use. */
  lemma IdleIsElapsed(now: nat, lastUsed: nat, d: int)
    ensures Elapsed(d, lastUsed, now) <==> d == IdleMs(now, lastUsed)
    ensures lastUsed <= now < lastUsed + 0x1_0000_0000_0000_0000 ==> IdleMs(now, lastUsed) == now - lastUsed
  {
    var m := 0x1_0000_0000_0000_0000;
    assert (now - lastUsed) == m * ((now - lastUsed) / m) + IdleMs(now, lastUsed);
    var q := (now - lastUsed) / m;
    if d == IdleMs(now, lastUsed) {
      assert lastUsed + d - now == m * -q;
    }
    if Elapsed(d, lastUsed, now) {
      var k := (lastUsed + d - now) / m;
      assert d - IdleMs(now, lastUsed) == m * (k + q);
    }
  }

  lemma SkippedIff(now: nat, lastUsed: nat, pingIdleMs: nat)
    ensures (exists d :: Elapsed(d, lastUsed, now) && d < pingIdleMs) <==> IdleMs(now, lastUsed) < pingIdleMs
  {
    IdleIsElapsed(now, lastUsed, IdleMs(now, lastUsed));
    forall d | Elapsed(d, lastUsed, now) ensures d == IdleMs(now, lastUsed) {
      IdleIsElapsed(now, lastUsed, d);
    }
  }

  /** What checking a connection does to it. */
  datatype Health = Health(open: bool, lastUsed: nat, healthy: bool, reconnects: nat)

  /** What EnsureHealthy promises for a connection that was open or not and last used then. */
  ghost predicate Ensured(wasOpen: bool, lastUsed: nat, now: nat, pingIdleMs: nat, attempts: nat, alive: bool, answers: seq<bool>, h: Health)
    requires |answers| >= attempts
  {
    var skipped := pingIdleMs != 0 && exists d :: Elapsed(d, lastUsed, now) && d < pingIdleMs;
    && (skipped ==> h == Health(wasOpen, lastUsed, true, 0))
    && (!skipped && alive ==> h == Health(wasOpen, now, true, 0))
    && (!skipped && !alive ==>
          && h.healthy == AnySucceeds(answers, attempts) && h.reconnects <= attempts
          && h.open == (if h.reconnects > 0 then h.healthy else wasOpen)
          && (forall k :: 0 <= k < h.reconnects - 1 ==> !answers[k])
          && (if h.healthy then h.reconnects > 0 && answers[h.reconnects - 1] && h.lastUsed == now
              else h.reconnects == attempts && h.lastUsed == lastUsed))
  }

  /** In particular, a connection is checked exactly if it was not used for `pingIdleMs`, or always if
  that is 0. */
  lemma CheckedIff(lastUsed: nat, now: nat, pingIdleMs: nat)
    requires lastUsed <= now < lastUsed + 0x1_0000_0000_0000_0000
    ensures (pingIdleMs != 0 && exists d :: Elapsed(d, lastUsed, now) && d < pingIdleMs)
      <==> pingIdleMs != 0 && now - lastUsed < pingIdleMs
  {
    IdleIsElapsed(now, lastUsed, now - lastUsed);
    forall d | Elapsed(d, lastUsed, now) ensures d == now - lastUsed {
      IdleIsElapsed(now, lastUsed, d);
    }
  }

  /** Checks a connection that has been idle for long and revives a dead one. `alive` is the answer to
  the ping, `answers` those to the reconnects. The connection is never given up. */
  method EnsureHealthy(c: DBConnection, now: nat, pingIdleMs: nat, attempts: nat, alive: bool, answers: seq<bool>)
    returns (healthy: bool, reconnects: nat)
    requires |answers| >= attempts
    modifies c
    ensures Ensured(old(c.open), old(c.lastUsed), now, pingIdleMs, attempts, alive, answers,
      Health(c.open, c.lastUsed, healthy, reconnects))
  {
    reconnects := 0;
    SkippedIff(now, c.lastUsed, pingIdleMs);
    if pingIdleMs != 0 && IdleMs(now, c.lastUsed) < pingIdleMs {
      return true, 0;
    }
    if alive {
      c.lastUsed := now;
      return true, 0;
    }
    for attempt := 0 to attempts
      invariant reconnects == attempt
      invariant forall k :: 0 <= k < attempt ==> !answers[k]
      invariant (if attempt > 0 then !c.open else c.open == old(c.open)) && c.lastUsed == old(c.lastUsed)
    {
      c.Disconnect();
      var ok := c.Connect(answers[attempt], now);
      reconnects := attempt + 1;
      if ok {
        return true, reconnects;
      }
    }
    return false, reconnects;
  }

  function Ids(cs: seq<DBConnection>): seq<nat> {
    seq(|cs|, i requires 0 <= i < |cs| => cs[i].id)
  }

  class DBConnectionPool {
    const throws: Throws
    const pingIdleMs: nat
    var connections: seq<DBConnection>
    var jobs: seq<Job>
    var stop: bool
    /** The threads, each with where it stands. */
    var workers: seq<Worker>
    /** The number of jobs taken, which numbers the next one. */
    var taken: nat
    /** The marks of the awaiters, and the resumptions posted to the coroutines' queues. */
    var failed: set<nat>
    var posted: seq<nat>
    ghost var past: seq<Job>
    ghost var runs: seq<nat>
    ghost var threw: set<nat>
    ghost var resumed: seq<Resumption>
    ghost var owed: nat

    /** What every critical section keeps: the invariant of DBPool. */
    ghost predicate Valid()
      reads this
    {
      taken == |past| && Inv(View())
    }

    ghost function View(): Pool
      reads this
    {
      Pool(past + jobs, taken, Ids(connections), workers, stop, failed, posted, runs, threw, resumed, owed)
    }

    constructor (throws: Throws, pingIdleMs: nat)
      ensures Valid() && View() == Connected(0) && this.throws == throws
      ensures connections == []
    {
      this.pingIdleMs := pingIdleMs;
      this.throws := throws;
      connections, jobs, workers := [], [], [];
      stop, taken, failed, posted := false, 0, {}, [];
      past, runs, threw, resumed, owed := [], [], {}, [], 0;
      new;
      ConnectedInv(0);
      assert View() == Connected(0);
    }

    /** Opens `count` connections and starts as many workers, or leaves nothing: `answers` is what the
    server says to each attempt, `made` are the connections tried. */
    method Connect(count: nat, answers: seq<bool>, now: nat) returns (ok: bool, ghost made: seq<DBConnection>)
      requires Valid() && View() == Connected(0) && |answers| >= count
      modifies this
      ensures Valid() && fresh(made)
      ensures ok == (forall i :: 0 <= i < count ==> answers[i])
      ensures ok ==> View() == Connected(count) && connections == made && forall c <- made :: c.open
      ensures !ok ==> View() == old(View()) && connections == [] && forall c <- made :: !c.open
    {
      var good: seq<DBConnection> := [];
      made := [];
      for i := 0 to count
        invariant Valid() && View() == old(View()) && connections == []
        invariant fresh(good) && made == good && |good| == i
        invariant forall k :: 0 <= k < i ==> answers[k] && good[k].id == k && good[k].open
      {
        var c := new DBConnection(i);
        var connected := c.Connect(answers[i], now);
        made := made + [c];
        if !connected {
          CloseAll(good);
          return false, made;
        }
        good := good + [c];
      }
      connections := good;
      workers := seq(count, i => Idle);
      ConnectedInv(count);
      assert View() == Connected(count);
      return true, made;
    }
  
    /** The step that a method makes keeps the invariant. */
    twostate lemma StepKeepsValid(l: Label)
      requires Enabled(old(View()), l) && old(Valid()) && View() == Next(old(View()), l) && taken == |past|
      ensures Valid()
    {
      StepKeepsInv(old(View()), l);
    }

    method PushJob(job: Job)
      requires Valid()
      modifies this
      ensures Valid() && View() == Next(old(View()), DBPool.PushJob(job)) && connections == old(connections)
    {
      assert past + (jobs + [job]) == past + jobs + [job];
      jobs := jobs + [job];
      StepKeepsValid(DBPool.PushJob(job));
    }

    method SetStop()
      requires Valid() && !stop
      modifies this
      ensures Valid() && View() == Next(old(View()), Stop) && connections == old(connections) && jobs == old(jobs)
    {
      owed := |past + jobs|;
      stop := true;
      StepKeepsValid(Stop);
    }

    method TakeJob(w: nat)
      requires Valid() && w < |workers| && workers[w].Idle? && jobs != []
      modifies this
      ensures Valid() && View() == Next(old(View()), DBPool.TakeJob(w)) && connections == old(connections)
    {
      var job := jobs[0];
      assert past + jobs == past + [job] + jobs[1..];
      jobs := jobs[1..];
      past := past + [job];
      workers := workers[w := Holding(taken, job)];
      taken := taken + 1;
      StepKeepsValid(DBPool.TakeJob(w));
    }

    method Pop(w: nat) returns (c: DBConnection)
      requires Valid() && w < |workers| && workers[w].Holding? && connections != []
      modifies this
      ensures Valid() && View() == Next(old(View()), PopConnection(w))
      ensures c == old(connections)[0] && connections == old(connections)[1..]
    {
      c := connections[0];
      assert Ids(connections)[1..] == Ids(connections[1..]);
      connections := connections[1..];
      workers := workers[w := Leased(workers[w].id, workers[w].job, c.id)];
      StepKeepsValid(PopConnection(w));
    }

    /** The lease ends. */
    method Push(w: nat, c: DBConnection)
      requires Valid() && w < |workers| && workers[w].Returning? && workers[w].conn == c.id
      modifies this
      ensures Valid() && View() == Next(old(View()), PushConnection(w))
      ensures connections == old(connections) + [c]
    {
      assert Ids(connections + [c]) == Ids(connections) + [c.id];
      connections := connections + [c];
      workers := workers[w := Idle];
      StepKeepsValid(PushConnection(w));
    }

    /** Runs the job and catches what it throws; `throws` is whether it does. */
    method RunJob(w: nat, throws: bool)
      requires Valid() && w < |workers| && workers[w].Checked?
      modifies this
      ensures Valid() && View() == Next(old(View()), DBPool.RunJob(w, throws)) && connections == old(connections)
    {
      var pc := workers[w];
      runs := runs + [pc.id];
      if throws { threw := threw + {pc.id}; }
      if pc.job.Plain? {
        workers := workers[w := Returning(pc.id, pc.conn)];
      } else {
        if throws { failed := failed + {pc.id}; }
        workers := workers[w := Answering(pc.id, pc.job, pc.conn)];
      }
      StepKeepsValid(DBPool.RunJob(w, throws));
    }

    /** The awaited job's last act: post the resumption, or resume here and now. The coroutine of this job
    had not been answered before and is answered once now, whichever way; resumed here, it learns whether
    the job threw. Nothing else changes but where the worker stands. */
    method Resume(w: nat)
      requires Valid() && w < |workers| && workers[w].Answering?
      modifies this`posted, this`resumed, this`workers
      ensures Valid() && View() == Next(old(View()), DBPool.Resume(w))
      ensures var id := old(workers[w].id);
        && old(Answered(View(), id)) == 0 && Answered(View(), id) == 1
        && (if old(workers[w].job) == Awaited(true) then posted == old(posted) + [id] && resumed == old(resumed)
            else posted == old(posted) && resumed == old(resumed) + [Resumption(id, id !in threw)])
        && workers == old(workers)[w := Returning(id, old(workers[w].conn))]
    {
      var pc := workers[w];
      AnswerDue(View(), w);
      if pc.job == Awaited(true) {
        posted := posted + [pc.id];
      } else {
        resumed := Continue(resumed, pc.id, failed);
      }
      workers := workers[w := Returning(pc.id, pc.conn)];
      StepKeepsValid(DBPool.Resume(w));
      ResumeMoves(old(View()), DBPool.Resume(w), pc.id);
    }

    /** Some job queue runs a resumption that was posted to it. */
    method RunPosted(k: nat)
      requires Valid() && k < |posted|
      modifies this
      ensures Valid() && View() == Next(old(View()), DBPool.RunPosted(k))
      ensures connections == old(connections) && workers == old(workers)
    {
      resumed := Continue(resumed, posted[k], failed);
      posted := posted[..k] + posted[k + 1..];
      StepKeepsValid(DBPool.RunPosted(k));
    }

    /** `answers` are what the server says to the ping and then to the reconnects. */
    method CheckHealth(w: nat, c: DBConnection, now: nat, answers: seq<bool>) returns (healthy: bool, reconnects: nat)
      requires Valid() && w < |workers| && workers[w].Leased? && answers != []
      modifies this, c
      ensures Ensured(old(c.open), old(c.lastUsed), now, pingIdleMs, |answers| - 1, answers[0], answers[1..],
        Health(c.open, c.lastUsed, healthy, reconnects))
      ensures Valid() && connections == old(connections)
      ensures View() == Next(old(View()), DBPool.CheckHealth(w, healthy))
    {
      healthy, reconnects := EnsureHealthy(c, now, pingIdleMs, |answers| - 1, answers[0], answers[1..]);
      var pc := workers[w];
      workers := workers[w := Checked(pc.id, pc.job, pc.conn, healthy)];
      StepKeepsValid(DBPool.CheckHealth(w, healthy));
    }

    /** Makes the step if it is possible; those with a connection in hand are the methods above. */
    method Do(l: Label) returns (did: bool)
      requires Valid() && !l.PopConnection? && !l.PushConnection? && !l.CheckHealth?
      modifies this
      ensures Valid() && connections == old(connections)
      ensures did <==> Enabled(old(View()), l)
      ensures View() == if did then Next(old(View()), l) else old(View())
    {
      did := match l
        case PushJob(_) => true
        case Stop => !stop
        case RunPosted(k) => k < |posted|
        case TakeJob(w) => w < |workers| && workers[w].Idle? && jobs != []
        case RunJob(w, _) => w < |workers| && workers[w].Checked?
        case Resume(w) => w < |workers| && workers[w].Answering?
        case Exit(w) => w < |workers| && workers[w].Idle? && stop && jobs == []
        case _ => false;
      if did {
        match l
        case PushJob(job) => PushJob(job);
        case Stop => SetStop();
        case RunPosted(k) => RunPosted(k);
        case TakeJob(w) => TakeJob(w);
        case RunJob(w, throws) => RunJob(w, throws);
        case Resume(w) => Resume(w);
        case Exit(w) => Leave(w);
        case _ =>
      }
    }

    method Begin(w: nat) returns (c: DBConnection)
      requires Valid() && w < |workers| && workers[w].Idle? && jobs != [] && connections != []
      modifies this
      ensures Valid() && CanWork(old(View()), w) && View() == DBPool.Begin(old(View()), w)
      ensures workers[w] == Leased(old(taken), old(jobs)[0], c.id)
      ensures c == old(connections)[0] && connections == old(connections)[1..]
    {
      TakeJob(w);
      c := Pop(w);
    }

    method RunLeased(w: nat, c: DBConnection, now: nat, answers: seq<bool>)
      requires Valid() && w < |workers| && workers[w].Leased? && answers != []
      modifies this, c
      ensures Valid() && connections == old(connections)
      ensures View() == DBPool.RunLeased(old(View()), w, true, throws(old(workers[w].id)))
      ensures |workers| == |old(workers)| && workers[w].id == old(workers[w].id) && workers[w].conn == old(workers[w].conn)
    {
      var healthy, reconnects := CheckHealth(w, c, now, answers);
      HealthIrrelevant(old(View()), w, healthy, throws(old(workers[w].id)));
      RunJob(w, throws(workers[w].id));
    }

    /** The end of the job: an awaited one has a coroutine to resume. */
    method Answer(w: nat)
      requires Valid() && w < |workers| && (workers[w].Answering? || workers[w].Returning?)
      modifies this
      ensures Valid() && connections == old(connections)
      ensures View() == if old(workers[w]).Answering? then Next(old(View()), DBPool.Resume(w)) else old(View())
      ensures w < |workers| && workers[w].Returning? && workers[w].conn == old(workers[w].conn)
    {
      if workers[w].Answering? {
        Resume(w);
      }
    }

    /** A connection counts as just used unless the worker had to catch what the job threw. */
    method Finish(w: nat, c: DBConnection, now: nat, answers: seq<bool>)
      requires Valid() && w < |workers| && workers[w].Leased? && workers[w].conn == c.id && answers != []
      modifies this, c
      ensures Valid() && connections == old(connections) + [c]
      ensures View() == DBPool.Finish(old(View()), w, throws(old(workers[w].id)))
      ensures old(workers[w].job).Awaited? || !throws(old(workers[w].id)) ==> c.lastUsed == now
    {
      var pc := workers[w];
      RunLeased(w, c, now, answers);
      Answer(w);
      if pc.job.Awaited? || !throws(pc.id) {
        c.TouchLastUsedTick(now);
      }
      Push(w, c);
    }

    /** One job of a worker that nobody disturbs; `all` are the connections it may use. */
    method Serve(w: nat, now: nat, answers: seq<bool>, ghost all: set<DBConnection>)
      requires Valid() && CanWork(View(), w) && jobs != [] && answers != [] && connections[0] in all
      modifies this, all
      ensures Valid() && View() == Round(old(View()), w, throws)
      ensures connections == old(connections)[1..] + [old(connections)[0]]
    {
      var c := Begin(w);
      Finish(w, c, now, answers);
    }

    /** Serving a job leaves the rest of the drain to do, with the same connections. */
    method ServeNext(w: nat, now: nat, answers: seq<bool>, ghost all: set<DBConnection>)
      requires Valid() && CanWork(View(), w) && jobs != [] && answers != [] && Members(connections) == all
      modifies this, all
      ensures Valid() && CanWork(View(), w) && |jobs| == |old(jobs)| - 1 && stop == old(stop)
      ensures Drain(View(), w, throws) == Drain(old(View()), w, throws)
      ensures Members(connections) == all
    {
      RoundLeavesRest(View(), w, throws);
      RotationSame(connections);
      Serve(w, now, answers, all);
    }

    method Leave(w: nat)
      requires Valid() && w < |workers| && workers[w].Idle? && stop && jobs == []
      modifies this
      ensures Valid() && connections == old(connections)
      ensures Enabled(old(View()), Exit(w)) && View() == Next(old(View()), Exit(w))
    {
      workers := workers[w := Exited];
      StepKeepsValid(Exit(w));
    }

    /** The loop of a worker that nobody disturbs, until the queue is empty. */
    method ServeAll(w: nat, now: nat, answers: seq<bool>, ghost all: set<DBConnection>)
      requires Valid() && CanWork(View(), w) && answers != [] && Members(connections) == all
      modifies this, all
      ensures Valid() && Members(connections) == all && stop == old(stop) && jobs == []
      ensures CanWork(View(), w) && View() == Drain(old(View()), w, throws)
    {
      while jobs != []
        invariant Valid() && CanWork(View(), w) && stop == old(stop)
        invariant Drain(View(), w, throws) == Drain(old(View()), w, throws)
        invariant Members(connections) == all
        decreases |jobs|
      {
        ServeNext(w, now, answers, all);
      }
      assert past + jobs == past;
    }

    /** After the stop it then leaves. */
    method WorkerThread(w: nat, now: nat, answers: seq<bool>, ghost all: set<DBConnection>)
      requires Valid() && CanWork(View(), w) && stop && answers != [] && Members(connections) == all
      modifies this, all
      ensures Valid() && Members(connections) == all
      ensures var t := Drain(old(View()), w, throws);
        Enabled(t, Exit(w)) && View() == Next(t, Exit(w))
    {
      ServeAll(w, now, answers, all);
      Leave(w);
    }

    method CloseConnections(ghost all: set<DBConnection>)
      requires Members(connections) == all
      modifies this`connections, all
      ensures connections == [] && forall c <- all :: !c.open
    {
      while connections != []
        invariant forall c <- connections :: c in all
        invariant forall c <- all :: c in connections || !c.open
        decreases |connections|
      {
        var c := connections[0];
        assert connections == [c] + connections[1..];
        connections := connections[1..];
        c.Disconnect();
      }
    }

    /** The end of the pool, when its workers have left: every connection is closed. */
    method Close(ghost all: set<DBConnection>)
      requires Valid() && (forall w :: 0 <= w < |workers| ==> workers[w].Exited?) && Members(connections) == all
      modifies this`workers, this`connections, all
      ensures Valid() && workers == [] && connections == [] && forall c <- all :: !c.open
    {
      ClearedInv(View());
      workers := [];
      CloseConnections(all);
    }
  }

  function Members(cs: seq<DBConnection>): set<DBConnection> {
    set c <- cs
  }

  lemma RotationSame(a: seq<DBConnection>)
    requires a != []
    ensures a[0] in Members(a) && Members(a[1..] + [a[0]]) == Members(a)
  {
    assert a == [a[0]] + a[1..];
  }

  method CloseAll(cs: seq<DBConnection>)
    modifies cs
    ensures forall c <- cs :: !c.open
  {
    for i := 0 to |cs|
      invariant forall k :: 0 <= k < i ==> !cs[k].open
    {
      cs[i].Disconnect();
    }
  }

  // ---------------------------------------------------------------- every interleaving of the workers

  /** The connection with this number is this object. */
  ghost predicate Known(c: DBConnection, made: seq<DBConnection>) {
    c.id < |made| && made[c.id] == c
  }

  /** The workers that should have a connection have the one they should. */
  ghost predicate LeasesOk(ws: seq<Worker>, leases: map<nat, DBConnection>, made: seq<DBConnection>) {
    && (forall w :: w in leases <==> 0 <= w < |ws| && HasLease(ws[w]))
    && (forall w :: w in leases ==> w < |ws| && HasLease(ws[w]) && leases[w].id == ws[w].conn && Known(leases[w], made))
  }

  ghost predicate AllKnown(cs: seq<DBConnection>, made: seq<DBConnection>) {
    forall k :: 0 <= k < |cs| ==> Known(cs[k], made)
  }

  lemma StepKeepsLeases(s: Pool, l: Label, leases: map<nat, DBConnection>, made: seq<DBConnection>)
    requires Enabled(s, l) && LeasesOk(s.workers, leases, made) && !l.PopConnection? && !l.PushConnection?
    ensures LeasesOk(Next(s, l).workers, leases, made)
  {
    NextWorkers(s, l);
    if ByWorker(l) {
      LeaseChanges(s, l);
      LeaseStays(s.workers, l.w, Next(s, l).workers[l.w], leases, made);
    }
  }

  lemma LeaseStays(ws: seq<Worker>, w: nat, pc: Worker, leases: map<nat, DBConnection>, made: seq<DBConnection>)
    requires LeasesOk(ws, leases, made) && w < |ws|
    requires SameLease(ws[w], pc)
    ensures LeasesOk(ws[w := pc], leases, made)
  {
  }

  lemma LeaseBegins(ws: seq<Worker>, w: nat, pc: Worker, c: DBConnection, leases: map<nat, DBConnection>, made: seq<DBConnection>)
    requires LeasesOk(ws, leases, made) && w < |ws| && HasLease(pc) && pc.conn == c.id && Known(c, made)
    ensures LeasesOk(ws[w := pc], leases[w := c], made)
  {
  }

  lemma LeaseEnds(ws: seq<Worker>, w: nat, pc: Worker, leases: map<nat, DBConnection>, made: seq<DBConnection>)
    requires LeasesOk(ws, leases, made) && w < |ws| && !HasLease(pc)
    ensures LeasesOk(ws[w := pc], leases - {w}, made)
  {
  }

  /** What was done when `l` was due: the step `l`, with whatever EnsureHealthy answered, or nothing if
  it was not possible. */
  ghost predicate Did(s: Pool, l: Label, s': Pool, done: seq<Label>) {
    if Enabled(s, l) then
      && |done| == 1 && Enabled(s, done[0]) && s' == Next(s, done[0])
      && (done[0] == l || (l.CheckHealth? && done[0] == CheckHealth(l.w, !l.healthy)))
    else done == [] && s' == s
  }

  /** The pool with its threads: `leases` are the connections in the hands of the workers, `made` all
  connections, by number. */
  class Threads {
    const pool: DBConnectionPool
    var leases: map<nat, DBConnection>
    ghost var made: seq<DBConnection>

    ghost predicate Valid()
      reads this, pool
    {
      && pool.Valid() && LeasesOk(pool.workers, leases, made) && AllKnown(pool.connections, made)
      && |made| == |pool.workers|
    }

    constructor (pool: DBConnectionPool)
      requires |pool.connections| == |pool.workers|
      requires pool.Valid() && forall w :: 0 <= w < |pool.workers| ==> pool.workers[w].Idle?
      requires forall i :: 0 <= i < |pool.connections| ==> pool.connections[i].id == i
      ensures Valid() && this.pool == pool && made == pool.connections && leases == map[]
    {
      this.pool := pool;
      leases, made := map[], pool.connections;
    }

    method DoPop(w: nat) returns (ghost done: seq<Label>)
      requires Valid()
      modifies this`leases, pool
      ensures Valid() && Did(old(pool.View()), PopConnection(w), pool.View(), done)
    {
      done := [];
      if w < |pool.workers| && pool.workers[w].Holding? && pool.connections != [] {
        ghost var s := pool.View();
        LeaseChanges(s, PopConnection(w));
        NextWorkers(s, PopConnection(w));
        var c := pool.Pop(w);
        LeaseBegins(s.workers, w, pool.workers[w], c, leases, made);
        leases := leases[w := c];
        done := [PopConnection(w)];
      }
    }

    method DoPush(w: nat) returns (ghost done: seq<Label>)
      requires Valid()
      modifies this`leases, pool
      ensures Valid() && Did(old(pool.View()), PushConnection(w), pool.View(), done)
    {
      done := [];
      if w < |pool.workers| && pool.workers[w].Returning? {
        ghost var s := pool.View();
        LeaseChanges(s, PushConnection(w));
        NextWorkers(s, PushConnection(w));
        var c := leases[w];
        pool.Push(w, c);
        LeaseEnds(s.workers, w, pool.workers[w], leases, made);
        leases := leases - {w};
        done := [PushConnection(w)];
      }
    }

    /** `answers` are what the server says to the ping and then to the reconnects. */
    method CheckLeased(w: nat, now: nat, answers: seq<bool>) returns (ghost h: Health)
      requires Valid() && w < |pool.workers| && pool.workers[w].Leased? && answers != []
      modifies pool, made
      ensures Valid() && pool.View() == Next(old(pool.View()), CheckHealth(w, h.healthy))
      ensures w in leases && h.open == leases[w].open && h.lastUsed == leases[w].lastUsed
      ensures Ensured(old(leases[w].open), old(leases[w].lastUsed), now, pool.pingIdleMs, |answers| - 1, answers[0], answers[1..], h)
    {
      var c := leases[w];
      assert c == made[c.id];
      ghost var s := pool.View();
      var healthy, reconnects := pool.CheckHealth(w, c, now, answers);
      StepKeepsLeases(s, CheckHealth(w, healthy), leases, made);
      h := Health(c.open, c.lastUsed, healthy, reconnects);
    }

    method DoCheck(w: nat, healthy: bool, now: nat, answers: seq<bool>) returns (ghost done: seq<Label>)
      requires Valid()
      modifies pool, made
      ensures Valid() && Did(old(pool.View()), CheckHealth(w, healthy), pool.View(), done)
    {
      done := [];
      if w < |pool.workers| && pool.workers[w].Leased? {
        ghost var h := CheckLeased(w, now, if answers == [] then [healthy] else answers);
        done := [CheckHealth(w, h.healthy)];
      }
    }

    /** A step in which no connection is used and none changes hands. */
    method DoOther(l: Label) returns (did: bool, ghost done: seq<Label>)
      requires Valid() && !l.PopConnection? && !l.PushConnection? && !l.CheckHealth?
      modifies pool
      ensures Valid() && Did(old(pool.View()), l, pool.View(), done)
      ensures did == Enabled(old(pool.View()), l)
    {
      ghost var s := pool.View();
      did := pool.Do(l);
      done := if did then [l] else [];
      if did { StepKeepsLeases(s, l, leases, made); }
    }

    /** A call of a job, or the end of an awaited one. When the job is over, its connection counts as just
    used, unless the worker had to catch what the job threw. */
    method DoJob(l: Label, now: nat) returns (ghost done: seq<Label>)
      requires Valid() && (l.RunJob? || l.Resume?)
      modifies pool, made
      ensures Valid() && Did(old(pool.View()), l, pool.View(), done)
      ensures done != [] ==> l.w in leases && Known(leases[l.w], made)
      ensures done != [] && pool.workers[l.w].Returning? && (l.Resume? || !l.throws) ==> leases[l.w].lastUsed == now
      ensures done != [] && !(pool.workers[l.w].Returning? && (l.Resume? || !l.throws)) ==>
        leases[l.w].lastUsed == old(leases[l.w].lastUsed)
    {
      var did;
      did, done := DoOther(l);
      if did {
        JobLease(old(pool.View()), l, leases, made);
        var c := leases[l.w];
        assert c == made[c.id];
        if pool.workers[l.w].Returning? && (l.Resume? || !l.throws) {
          c.TouchLastUsedTick(now);
        }
      }
    }

    method Do(l: Label, now: nat, answers: seq<bool>) returns (ghost done: seq<Label>)
      requires Valid()
      modifies this`leases, pool, made
      ensures Valid() && Did(old(pool.View()), l, pool.View(), done)
    {
      match l
      case PopConnection(w) => done := DoPop(w);
      case PushConnection(w) => done := DoPush(w);
      case CheckHealth(w, healthy) => done := DoCheck(w, healthy, now, answers);
      case RunJob(_, _) => done := DoJob(l, now);
      case Resume(_) => done := DoJob(l, now);
      case _ =>
        var did;
        did, done := DoOther(l);
    }

    /** The step a worker makes next, `more` saying whether a job is queued. */
    method NextOf(w: nat) returns (l: Label)
      requires Valid() && pool.stop && w < |pool.workers| && !pool.workers[w].Exited?
      ensures Enabled(pool.View(), l) && ByWorker(l) && l.w == w
    {
      WorkerCanStep(pool.View(), w);
      var pc := pool.workers[w];
      l := WorkersLabel(pc, w, pool.jobs != []);
      if pc.Checked? {
        l := RunJob(w, pool.throws(pc.id));
      }
    }

    /** One step of a worker on its way out. */
    method StepOut(w: nat, now: nat, answers: seq<bool>)
      requires Valid() && pool.stop && w < |pool.workers| && !pool.workers[w].Exited?
      modifies this`leases, pool, made
      ensures Valid() && pool.stop && |pool.workers| == |old(pool.workers)|
      ensures forall v :: 0 <= v < |pool.workers| && v != w ==> pool.workers[v] == old(pool.workers)[v]
      ensures pool.past + pool.jobs == old(pool.past + pool.jobs)
      ensures pool.workers[w].Exited? || old(pool.jobs) == [] ==> pool.jobs == []
      ensures 0 <= Work(pool.View()) < old(Work(pool.View()))
    {
      ghost var s := pool.View();
      var l := NextOf(w);
      ghost var done := Do(l, now, answers);
      StepOutDrops(s, w, done[0]);
    }

    /** A worker, wherever it stands when the stop comes, finishes what it is doing, runs what is queued
    and leaves. */
    method Join(w: nat, now: nat, answers: seq<bool>)
      requires Valid() && pool.stop && w < |pool.workers|
      modifies this`leases, pool, made
      ensures Valid() && pool.stop && |pool.workers| == |old(pool.workers)| && pool.workers[w].Exited?
      ensures forall v :: 0 <= v < |pool.workers| && v != w ==> pool.workers[v] == old(pool.workers)[v]
      ensures pool.past + pool.jobs == old(pool.past + pool.jobs)
      ensures old(!pool.workers[w].Exited? || pool.jobs == []) ==> pool.jobs == []
    {
      while !pool.workers[w].Exited?
        invariant Valid() && pool.stop && |pool.workers| == |old(pool.workers)|
        invariant forall v :: 0 <= v < |pool.workers| && v != w ==> pool.workers[v] == old(pool.workers)[v]
        invariant pool.past + pool.jobs == old(pool.past + pool.jobs)
        invariant pool.workers[w].Exited? && old(!pool.workers[w].Exited?) ==> pool.jobs == []
        invariant old(pool.jobs) == [] ==> pool.jobs == []
        decreases Work(pool.View())
      {
        StepOut(w, now, answers);
      }
    }

    method JoinAll(now: nat, answers: seq<bool>)
      requires Valid() && pool.stop
      modifies this`leases, pool, made
      ensures Valid() && pool.stop && |pool.workers| == |old(pool.workers)|
      ensures forall w :: 0 <= w < |pool.workers| ==> pool.workers[w].Exited?
      ensures pool.past + pool.jobs == old(pool.past + pool.jobs)
      ensures (exists w :: 0 <= w < |old(pool.workers)| && !old(pool.workers)[w].Exited?) ==> pool.jobs == []
    {
      for w := 0 to |pool.workers|
        invariant Valid() && pool.stop && |pool.workers| == |old(pool.workers)|
        invariant forall v :: 0 <= v < |pool.workers| ==>
          if v < w then pool.workers[v].Exited? else pool.workers[v] == old(pool.workers)[v]
        invariant pool.past + pool.jobs == old(pool.past + pool.jobs)
        invariant (exists v :: 0 <= v < w && !old(pool.workers)[v].Exited?) ==> pool.jobs == []
      {
        Join(w, now, answers);
      }
    }

    /** Stops the pool, whatever its workers are doing: they finish, run every job that has been pushed,
    and leave; then every connection is closed. If some worker had not left before, no job is left. */
    method Clear(now: nat, answers: seq<bool>)
      requires Valid()
      modifies this`leases, pool, made
      ensures pool.Valid() && pool.stop && pool.connections == [] && pool.workers == []
      ensures made == old(made) && forall c <- made :: !c.open
      ensures (exists w :: 0 <= w < |old(pool.workers)| && !old(pool.workers)[w].Exited?) ==>
        pool.jobs == [] && forall id: nat :: id in pool.runs <==> id < |old(pool.past + pool.jobs)|
    {
      if !pool.stop {
        pool.SetStop();
      }
      JoinAll(now, answers);
      CloseAfterJoin();
    }

    method CloseAfterJoin()
      requires Valid() && forall w :: 0 <= w < |pool.workers| ==> pool.workers[w].Exited?
      modifies pool, made
      ensures pool.Valid() && pool.connections == [] && pool.workers == []
      ensures pool.stop == old(pool.stop) && pool.jobs == old(pool.jobs) && forall c <- made :: !c.open
      ensures pool.jobs == [] ==> forall id: nat :: id in pool.runs <==> id < |old(pool.past + pool.jobs)|
    {
      AllAreHome();
      if pool.jobs == [] { AllRun(pool.View()); }
      pool.Close(Members(made));
    }

    lemma AllAreHome()
      requires Valid() && forall w :: 0 <= w < |pool.workers| ==> pool.workers[w].Exited?
      ensures Members(pool.connections) == Members(made)
    {
      forall c <- pool.connections ensures c in made {
        var k :| 0 <= k < |pool.connections| && pool.connections[k] == c;
        assert Known(pool.connections[k], made);
      }
      forall i | 0 <= i < |made| ensures made[i] in pool.connections {
        AllHome(pool.View(), i);
        var k :| 0 <= k < |Ids(pool.connections)| && Ids(pool.connections)[k] == i;
        assert Known(pool.connections[k], made);
      }
    }
  }

  lemma JobLease(s: Pool, l: Label, leases: map<nat, DBConnection>, made: seq<DBConnection>)
    requires Enabled(s, l) && (l.RunJob? || l.Resume?) && LeasesOk(s.workers, leases, made)
    ensures l.w in leases && Known(leases[l.w], made)
    ensures |Next(s, l).workers| == |s.workers|
  {
  }

  lemma StepOutDrops(s: Pool, w: nat, l: Label)
    requires Inv(s) && Enabled(s, l) && ByWorker(l) && l.w == w
    ensures var t := Next(s, l);
      && |t.workers| == |s.workers| && t.pushed == s.pushed && t.stop == s.stop && s.taken <= t.taken <= |t.pushed|
      && (forall v :: 0 <= v < |t.workers| && v != w ==> t.workers[v] == s.workers[v])
      && (t.workers[w].Exited? ==> t.taken == |t.pushed|)
      && 0 <= Work(t) < Work(s)
  {
    NextWorkers(s, l);
    WorkDrops(s, l);
    assert JobKept(s, 0);
    StepKeepsJob(s, l, 0);
    WorkSign(Next(s, l));
  }

  lemma RunExtends(n: nat, trace: seq<Pool>, labels: seq<Label>, l: Label, s: Pool)
    requires IsRun(n, trace, labels) && Enabled(trace[|labels|], l) && s == Next(trace[|labels|], l)
    ensures IsRun(n, trace + [s], labels + [l])
  {
    var trace', labels' := trace + [s], labels + [l];
    forall i | 0 <= i < |labels'| ensures Enabled(trace'[i], labels'[i]) && trace'[i + 1] == Next(trace'[i], labels'[i]) {
      if i < |labels| {
        assert trace'[i] == trace[i] && trace'[i + 1] == trace[i + 1] && labels'[i] == labels[i];
      } else {
        assert trace'[i] == trace[|labels|] && labels'[i] == l && trace'[i + 1] == s;
      }
    }
  }

  lemma RunGoesOn(n: nat, trace: seq<Pool>, labels: seq<Label>, l: Label, s: Pool, done: seq<Label>)
    requires IsRun(n, trace, labels) && Did(trace[|labels|], l, s, done)
    ensures var trace' := if done == [] then trace else trace + [s];
      IsRun(n, trace', labels + done) && trace'[|labels + done|] == s
  {
    if done == [] {
      assert labels + done == labels;
    } else {
      RunExtends(n, trace, labels, done[0], s);
      assert done == [done[0]];
    }
  }

  lemma IdsInOrder(cs: seq<DBConnection>, n: nat)
    requires Ids(cs) == Connected(n).connections
    ensures |cs| == n && forall i :: 0 <= i < |cs| ==> cs[i].id == i
  {
    forall i | 0 <= i < |cs| ensures cs[i].id == i {
      assert Ids(cs)[i] == Connected(n).connections[i];
    }
  }

  method StartPool(n: nat, throws: Throws, pingIdleMs: nat, now: nat) returns (ts: Threads)
    ensures fresh(ts) && fresh(ts.pool) && fresh(ts.made) && ts.Valid() && |ts.made| == n
    ensures ts.pool.View() == Connected(n)
  {
    var pool := new DBConnectionPool(throws, pingIdleMs);
    var ok, made := pool.Connect(n, seq(n, i => true), now);
    assert ok;
    assert pool.View().workers == Connected(n).workers && pool.View().connections == Connected(n).connections;
    IdsInOrder(pool.connections, n);
    ts := new Threads(pool);
  }

  /** What comes to pass next: a step of some thread, and what the clock and the server say then. */
  datatype Event = Event(step: Label, now: nat, answers: seq<bool>)

  function Flat(dones: seq<seq<Label>>): seq<Label> {
    if dones == [] then [] else Flat(dones[..|dones| - 1]) + dones[|dones| - 1]
  }

  /** The events one after the other, from state to state. */
  ghost predicate Followed(schedule: seq<Event>, states: seq<Pool>, dones: seq<seq<Label>>) {
    && |states| == |schedule| + 1 && |dones| == |schedule|
    && forall i :: 0 <= i < |schedule| ==> Did(states[i], schedule[i].step, states[i + 1], dones[i])
  }

  lemma FollowedOneMore(schedule: seq<Event>, states: seq<Pool>, dones: seq<seq<Label>>, e: Event, s: Pool, done: seq<Label>)
    requires Followed(schedule, states, dones) && Did(states[|schedule|], e.step, s, done)
    ensures Followed(schedule + [e], states + [s], dones + [done])
  {
    var all, states', dones' := schedule + [e], states + [s], dones + [done];
    forall i | 0 <= i < |all| ensures Did(states'[i], all[i].step, states'[i + 1], dones'[i]) {
      if i < |schedule| {
        assert states'[i] == states[i] && states'[i + 1] == states[i + 1] && dones'[i] == dones[i];
      }
    }
  }

  lemma FollowedFront(schedule: seq<Event>, states: seq<Pool>, dones: seq<seq<Label>>)
    requires Followed(schedule, states, dones) && schedule != []
    ensures var n := |schedule| - 1;
      && Followed(schedule[..n], states[..n + 1], dones[..n])
      && Did(states[n], schedule[n].step, states[n + 1], dones[n])
  {
    var n := |schedule| - 1;
    forall i | 0 <= i < n ensures Did(states[..n + 1][i], schedule[..n][i].step, states[..n + 1][i + 1], dones[..n][i]) {
      assert Did(states[i], schedule[i].step, states[i + 1], dones[i]);
    }
  }

  /** What was done, without the events that were not possible, is a run of DBPool. */
  lemma {:induction false} FollowedIsRun(n: nat, schedule: seq<Event>, states: seq<Pool>, dones: seq<seq<Label>>)
    returns (trace: seq<Pool>)
    requires Followed(schedule, states, dones) && states[0] == Connected(n)
    ensures IsRun(n, trace, Flat(dones)) && trace[|Flat(dones)|] == states[|schedule|]
  {
    if schedule == [] {
      trace := [Connected(n)];
    } else {
      var k := |schedule| - 1;
      FollowedFront(schedule, states, dones);
      var before := FollowedIsRun(n, schedule[..k], states[..k + 1], dones[..k]);
      RunGoesOn(n, before, Flat(dones[..k]), schedule[k].step, states[k + 1], dones[k]);
      trace := if dones[k] == [] then before else before + [states[k + 1]];
    }
  }

  /** The events one after the other on the object. */
  method Play(ts: Threads, schedule: seq<Event>) returns (ghost states: seq<Pool>, ghost dones: seq<seq<Label>>)
    requires ts.Valid()
    modifies ts`leases, ts.pool, ts.made
    ensures ts.Valid() && ts.made == old(ts.made)
    ensures Followed(schedule, states, dones)
    ensures states[0] == old(ts.pool.View()) && states[|schedule|] == ts.pool.View()
  {
    states, dones := [ts.pool.View()], [];
    for i := 0 to |schedule|
      invariant ts.Valid() && ts.made == old(ts.made)
      invariant Followed(schedule[..i], states, dones)
      invariant states[0] == old(ts.pool.View()) && states[i] == ts.pool.View()
    {
      ghost var done := ts.Do(schedule[i].step, schedule[i].now, schedule[i].answers);
      FollowedOneMore(schedule[..i], states, dones, schedule[i], ts.pool.View(), done);
      assert schedule[..i + 1] == schedule[..i] + [schedule[i]];
      states, dones := states + [ts.pool.View()], dones + [done];
    }
    assert schedule[..|schedule|] == schedule;
  }

  /** Any schedule of any number of workers, run on the object: each event is the step that it names, if
  this was possible. What was done is a run of DBPool, so that all that is said of its runs holds of the
  pool's fields, and no connection object is lost or made up. */
  method RunSchedule(n: nat, throws: Throws, pingIdleMs: nat, schedule: seq<Event>, now: nat)
    returns (ts: Threads, ghost states: seq<Pool>, ghost dones: seq<seq<Label>>, ghost trace: seq<Pool>)
    ensures fresh(ts) && ts.Valid() && |ts.made| == n
    ensures Followed(schedule, states, dones)
    ensures states[0] == Connected(n) && states[|schedule|] == ts.pool.View()
    ensures IsRun(n, trace, Flat(dones)) && trace[|Flat(dones)|] == ts.pool.View()
  {
    ts := StartPool(n, throws, pingIdleMs, now);
    states, dones := Play(ts, schedule);
    trace := FollowedIsRun(n, schedule, states, dones);
  }
}
