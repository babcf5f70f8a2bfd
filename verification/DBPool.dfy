/** The database pool: N connections, N worker threads, one job queue, and the coroutines that wait for
their jobs. One step is one critical section, one call of a job, or one resumption. */
module DBPool {

  /** An awaited job is pushed by a suspended coroutine; `hasQueue` says whether the coroutine is to be
  resumed as a job of some queue or on the database thread itself. */
  datatype Job = Plain | Awaited(hasQueue: bool)

  /** Jobs are named by their place in the order of pushes. Holding: taken off the job queue. Leased: has
  a connection. Checked: EnsureHealthy returned. Answering: the awaited job has run, its coroutine has
  not been resumed. Returning: about to give the connection back. */
  datatype Worker =
    | Idle
    | Holding(id: nat, job: Job)
    | Leased(id: nat, job: Job, conn: nat)
    | Checked(id: nat, job: Job, conn: nat, healthy: bool)
    | Answering(id: nat, job: Job, conn: nat)
    | Returning(id: nat, conn: nat)
    | Exited

  /** What a coroutine got from its await. */
  datatype Resumption = Resumption(op: nat, ok: bool)

  /** The queued jobs are `pushed[taken..]`. `failed` holds the operations whose awaiter was marked as
  failed; `posted` the resumptions waiting in some job queue. `runs`, `threw`, `resumed` and `owed`
  (how many jobs had been pushed when the pool was stopped) are history. */
  datatype Pool = Pool(
    pushed: seq<Job>,
    taken: nat,
    connections: seq<nat>,
    workers: seq<Worker>,
    stop: bool,
    failed: set<nat>,
    posted: seq<nat>,
    runs: seq<nat>,
    threw: set<nat>,
    resumed: seq<Resumption>,
    owed: nat)

  datatype Label =
    | PushJob(job: Job)
    | Stop
    | RunPosted(k: nat)
    | TakeJob(w: nat)
    | PopConnection(w: nat)
    | CheckHealth(w: nat, healthy: bool)
    | RunJob(w: nat, throws: bool)
    | Resume(w: nat)
    | PushConnection(w: nat)
    | Exit(w: nat)

  function Connected(n: nat): Pool {
    Pool([], 0, seq(n, i => i), seq(n, i => Idle), false, {}, [], [], {}, [], 0)
  }

  predicate At(s: Pool, w: nat) {
    w < |s.workers|
  }

  predicate Enabled(s: Pool, l: Label) {
    match l
    case PushJob(_) => true
    case Stop => !s.stop
    case RunPosted(k) => k < |s.posted|
    case TakeJob(w) => At(s, w) && s.workers[w].Idle? && s.taken < |s.pushed|
    case PopConnection(w) => At(s, w) && s.workers[w].Holding? && s.connections != []
    case CheckHealth(w, _) => At(s, w) && s.workers[w].Leased?
    case RunJob(w, _) => At(s, w) && s.workers[w].Checked?
    case Resume(w) => At(s, w) && s.workers[w].Answering?
    case PushConnection(w) => At(s, w) && s.workers[w].Returning?
    case Exit(w) => At(s, w) && s.workers[w].Idle? && s.stop && s.taken == |s.pushed|
  }

  function Set(s: Pool, w: nat, pc: Worker): Pool
    requires At(s, w)
  {
    s.(workers := s.workers[w := pc])
  }

  /** The coroutine of `op` goes on: it reads the mark of its awaiter. */
  function Continue(resumed: seq<Resumption>, op: nat, failed: set<nat>): seq<Resumption> {
    resumed + [Resumption(op, op !in failed)]
  }

  /** The answer of EnsureHealthy does not decide whether the job runs, and a job that throws is like
  one that returns except for the awaiter's mark. */
  function Next(s: Pool, l: Label): Pool
    requires Enabled(s, l)
  {
    match l
    case PushJob(job) => s.(pushed := s.pushed + [job])
    case Stop => s.(stop := true, owed := |s.pushed|)
    case RunPosted(k) =>
      s.(posted := s.posted[..k] + s.posted[k + 1..], resumed := Continue(s.resumed, s.posted[k], s.failed))
    case TakeJob(w) => Set(s.(taken := s.taken + 1), w, Holding(s.taken, s.pushed[s.taken]))
    case PopConnection(w) =>
      var pc := s.workers[w];
      Set(s.(connections := s.connections[1..]), w, Leased(pc.id, pc.job, s.connections[0]))
    case CheckHealth(w, healthy) =>
      var pc := s.workers[w];
      Set(s, w, Checked(pc.id, pc.job, pc.conn, healthy))
    case RunJob(w, throws) =>
      var pc := s.workers[w];
      var ran := s.(runs := s.runs + [pc.id], threw := if throws then s.threw + {pc.id} else s.threw);
      if pc.job.Plain? then Set(ran, w, Returning(pc.id, pc.conn))
      else Set(ran.(failed := if throws then s.failed + {pc.id} else s.failed), w, Answering(pc.id, pc.job, pc.conn))
    case Resume(w) =>
      var pc := s.workers[w];
      var t := if pc.job == Awaited(true) then s.(posted := s.posted + [pc.id])
        else s.(resumed := Continue(s.resumed, pc.id, s.failed));
      Set(t, w, Returning(pc.id, pc.conn))
    case PushConnection(w) =>
      var pc := s.workers[w];
      Set(s.(connections := s.connections + [pc.conn]), w, Idle)
    case Exit(w) => Set(s, w, Exited)
  }

  /** A run from a successful Connect(n). */
  ghost predicate IsRun(n: nat, trace: seq<Pool>, labels: seq<Label>) {
    && |trace| == |labels| + 1 && trace[0] == Connected(n)
    && forall i :: 0 <= i < |labels| ==> Enabled(trace[i], labels[i]) && trace[i + 1] == Next(trace[i], labels[i])
  }

  // ---------------------------------------------------------------- who holds what

  /** What can be counted over the workers: leases (of one connection or of any), jobs taken and not yet
  run, coroutines to resume, and the steps a worker still has to make. */
  datatype Share = LeasesOf(conn: nat) | Leases | ToRun(id: nat) | ToAnswer(op: nat) | StepsLeft

  predicate HasLease(pc: Worker) {
    pc.Leased? || pc.Checked? || pc.Answering? || pc.Returning?
  }

  predicate BeforeRun(pc: Worker) {
    pc.Holding? || pc.Leased? || pc.Checked?
  }

  function Steps(pc: Worker): nat {
    match pc
    case Exited => 0
    case Idle => 1
    case Returning(_, _) => 2
    case Answering(_, _, _) => 4
    case Checked(_, _, _, _) => 5
    case Leased(_, _, _) => 6
    case Holding(_, _) => 7
  }

  function One(b: bool): nat {
    if b then 1 else 0
  }

  function Weight(k: Share, pc: Worker): nat {
    match k
    case LeasesOf(c) => One(HasLease(pc) && pc.conn == c)
    case Leases => One(HasLease(pc))
    case ToRun(id) => One(BeforeRun(pc) && pc.id == id)
    case ToAnswer(op) => One(pc.Answering? && pc.id == op)
    case StepsLeft => Steps(pc)
  }

  function Sum(ws: seq<Worker>, k: Share): nat {
    if ws == [] then 0 else Sum(ws[..|ws| - 1], k) + Weight(k, ws[|ws| - 1])
  }

  lemma {:induction false} SumUpdate(ws: seq<Worker>, w: nat, pc: Worker, k: Share)
    requires w < |ws|
    ensures Sum(ws[w := pc], k) == Sum(ws, k) - Weight(k, ws[w]) + Weight(k, pc)
  {
    var n := |ws| - 1;
    var us := ws[w := pc];
    if w == n {
      assert us[..n] == ws[..n];
    } else {
      SumUpdate(ws[..n], w, pc, k);
      assert us[..n] == ws[..n][w := pc];
    }
  }

  lemma {:induction false} SumAtLeast(ws: seq<Worker>, w: nat, k: Share)
    requires w < |ws|
    ensures Weight(k, ws[w]) <= Sum(ws, k)
  {
    if w < |ws| - 1 { SumAtLeast(ws[..|ws| - 1], w, k); }
  }

  lemma {:induction false} SumOfTwo(ws: seq<Worker>, v: nat, w: nat, k: Share)
    requires v < w < |ws|
    ensures Weight(k, ws[v]) + Weight(k, ws[w]) <= Sum(ws, k)
  {
    if w < |ws| - 1 { SumOfTwo(ws[..|ws| - 1], v, w, k); } else { SumAtLeast(ws[..w], v, k); }
  }

  lemma {:induction false} LeasesBelow(ws: seq<Worker>, w: nat)
    requires w < |ws| && !HasLease(ws[w])
    ensures Sum(ws, Leases) < |ws|
  {
    LeasesAtMost(ws[..|ws| - 1]);
    if w < |ws| - 1 { LeasesBelow(ws[..|ws| - 1], w); }
  }

  lemma {:induction false} LeasesAtMost(ws: seq<Worker>)
    ensures Sum(ws, Leases) <= |ws|
  {
    if ws != [] { LeasesAtMost(ws[..|ws| - 1]); }
  }

  function Occurs(s: seq<nat>, x: nat): nat {
    if s == [] then 0 else Occurs(s[..|s| - 1], x) + One(s[|s| - 1] == x)
  }

  lemma {:induction false} OccursConcat(a: seq<nat>, b: seq<nat>, x: nat)
    ensures Occurs(a + b, x) == Occurs(a, x) + Occurs(b, x)
  {
    if b == [] {
      assert a + b == a;
    } else {
      assert (a + b)[..|a + b| - 1] == a + b[..|b| - 1];
      OccursConcat(a, b[..|b| - 1], x);
    }
  }

  lemma OccursSnoc(a: seq<nat>, y: nat, x: nat)
    ensures Occurs(a + [y], x) == Occurs(a, x) + One(y == x)
  {
    assert (a + [y])[..|a|] == a;
  }

  lemma OccursRemove(a: seq<nat>, k: nat, x: nat)
    requires k < |a|
    ensures Occurs(a, x) == Occurs(a[..k] + a[k + 1..], x) + One(a[k] == x)
  {
    assert a == a[..k + 1] + a[k + 1..];
    assert a[..k + 1] == a[..k] + [a[k]];
    OccursSnoc(a[..k], a[k], x);
    OccursConcat(a[..k + 1], a[k + 1..], x);
    OccursConcat(a[..k], a[k + 1..], x);
  }

  lemma OccursHead(a: seq<nat>, x: nat)
    requires a != []
    ensures Occurs(a, x) == Occurs(a[1..], x) + One(a[0] == x)
  {
    OccursRemove(a, 0, x);
    assert a[..0] + a[1..] == a[1..];
  }

  lemma {:induction false} OccursIff(a: seq<nat>, x: nat)
    ensures Occurs(a, x) > 0 <==> x in a
  {
    if a != [] {
      OccursIff(a[..|a| - 1], x);
      assert a == a[..|a| - 1] + [a[|a| - 1]];
    }
  }

  lemma {:induction false} OccursTwice(a: seq<nat>, i: nat, j: nat)
    requires i < j < |a| && a[i] == a[j]
    ensures Occurs(a, a[i]) > 1
  {
    if j < |a| - 1 { OccursTwice(a[..|a| - 1], i, j); } else { OccursIff(a[..j], a[i]); }
  }

  function OpsOf(rs: seq<Resumption>): seq<nat> {
    if rs == [] then [] else OpsOf(rs[..|rs| - 1]) + [rs[|rs| - 1].op]
  }

  predicate IsAwaited(s: Pool, id: nat) {
    id < |s.pushed| && s.pushed[id].Awaited?
  }

  /** How often the coroutine of `op` has been resumed or is waiting in its queue to be, and how often it
  should have been by now. */
  function Answered(s: Pool, op: nat): nat {
    Occurs(s.posted, op) + Occurs(OpsOf(s.resumed), op)
  }

  function Due(s: Pool, op: nat): nat {
    if IsAwaited(s, op) then Occurs(s.runs, op) else 0
  }

  // ---------------------------------------------------------------- the invariant

  ghost predicate ConnectionKept(s: Pool, c: nat) {
    Occurs(s.connections, c) + Sum(s.workers, LeasesOf(c)) == One(c < |s.workers|)
  }

  predicate SizeKept(s: Pool) {
    |s.connections| + Sum(s.workers, Leases) == |s.workers|
  }

  ghost predicate JobKept(s: Pool, id: nat) {
    s.taken <= |s.pushed| && Occurs(s.runs, id) + Sum(s.workers, ToRun(id)) == One(id < s.taken)
  }

  ghost predicate AnswerKept(s: Pool, op: nat) {
    Answered(s, op) + Sum(s.workers, ToAnswer(op)) == Due(s, op)
  }

  ghost predicate JobOf(s: Pool, pc: Worker) {
    (pc.Holding? || pc.Leased? || pc.Checked? || pc.Answering?) ==> pc.id < |s.pushed| && pc.job == s.pushed[pc.id]
  }

  ghost predicate JobsKnown(s: Pool) {
    forall w :: 0 <= w < |s.workers| ==> JobOf(s, s.workers[w])
  }

  ghost predicate Marked(s: Pool) {
    && (forall id :: id in s.threw ==> id in s.runs)
    && (forall id: nat :: id in s.failed <==> id in s.threw && IsAwaited(s, id))
    && (forall k :: 0 <= k < |s.resumed| ==> s.resumed[k].ok == (s.resumed[k].op !in s.threw))
  }

  ghost predicate ExitOk(s: Pool) {
    && s.owed <= |s.pushed|
    && ((exists w :: 0 <= w < |s.workers| && s.workers[w].Exited?) ==> s.stop && s.owed <= s.taken)
  }

  ghost predicate Inv(s: Pool) {
    && (forall c: nat :: ConnectionKept(s, c)) && SizeKept(s)
    && (forall id: nat :: JobKept(s, id))
    && (forall op: nat :: AnswerKept(s, op))
    && JobsKnown(s) && Marked(s) && ExitOk(s)
  }

  // ---------------------------------------------------------------- every step keeps it

  predicate ByWorker(l: Label) {
    !l.PushJob? && !l.Stop? && !l.RunPosted?
  }

  lemma NextWorkers(s: Pool, l: Label)
    requires Enabled(s, l)
    ensures |Next(s, l).workers| == |s.workers|
    ensures !ByWorker(l) ==> Next(s, l).workers == s.workers
    ensures ByWorker(l) ==> At(s, l.w) && Next(s, l).workers == s.workers[l.w := Next(s, l).workers[l.w]]
  {
  }

  lemma NextSum(s: Pool, l: Label, k: Share)
    requires Enabled(s, l)
    ensures |Next(s, l).workers| == |s.workers|
    ensures Sum(Next(s, l).workers, k) == Sum(s.workers, k) +
      (if ByWorker(l) then Weight(k, Next(s, l).workers[l.w]) - Weight(k, s.workers[l.w]) else 0)
  {
    NextWorkers(s, l);
    if ByWorker(l) {
      SumUpdate(s.workers, l.w, Next(s, l).workers[l.w], k);
    }
  }

  lemma StepKeepsConnection(s: Pool, l: Label, c: nat)
    requires Enabled(s, l) && ConnectionKept(s, c)
    ensures ConnectionKept(Next(s, l), c)
  {
    NextSum(s, l, LeasesOf(c));
    ConnectionMoves(s, l, c);
  }

  lemma ConnectionMoves(s: Pool, l: Label, c: nat)
    requires Enabled(s, l)
    ensures !ByWorker(l) ==> Next(s, l).connections == s.connections
    ensures |Next(s, l).workers| == |s.workers|
    ensures ByWorker(l) ==> (
      var pc, qc := s.workers[l.w], Next(s, l).workers[l.w];
      Occurs(Next(s, l).connections, c) + Weight(LeasesOf(c), qc) == Occurs(s.connections, c) + Weight(LeasesOf(c), pc))
  {
    NextWorkers(s, l);
    if l.PopConnection? || l.PushConnection? {
      LeaseMoves(s, l, c);
    } else {
      LeaseStays(s, l, c);
    }
  }

  lemma LeaseMoves(s: Pool, l: Label, c: nat)
    requires Enabled(s, l) && (l.PopConnection? || l.PushConnection?)
    requires |Next(s, l).workers| == |s.workers|
    ensures Occurs(Next(s, l).connections, c) + Weight(LeasesOf(c), Next(s, l).workers[l.w])
      == Occurs(s.connections, c) + Weight(LeasesOf(c), s.workers[l.w])
  {
    if l.PopConnection? {
      OccursHead(s.connections, c);
    } else {
      OccursSnoc(s.connections, s.workers[l.w].conn, c);
    }
  }

  lemma LeaseStays(s: Pool, l: Label, c: nat)
    requires Enabled(s, l) && !l.PopConnection? && !l.PushConnection?
    requires |Next(s, l).workers| == |s.workers|
    ensures Next(s, l).connections == s.connections
    ensures ByWorker(l) ==> Weight(LeasesOf(c), Next(s, l).workers[l.w]) == Weight(LeasesOf(c), s.workers[l.w])
  {
  }

  predicate SameLease(pc: Worker, qc: Worker) {
    (HasLease(pc) <==> HasLease(qc)) && (HasLease(pc) && HasLease(qc) ==> qc.conn == pc.conn)
  }

  /** Only taking and returning a connection changes whether a worker has one, and which. */
  lemma LeaseChanges(s: Pool, l: Label)
    requires Enabled(s, l) && ByWorker(l)
    ensures |Next(s, l).workers| == |s.workers|
    ensures l.PopConnection? ==>
      !HasLease(s.workers[l.w]) && Next(s, l).workers[l.w] == Leased(s.workers[l.w].id, s.workers[l.w].job, s.connections[0])
    ensures l.PushConnection? ==> HasLease(s.workers[l.w]) && Next(s, l).workers[l.w] == Idle
    ensures !l.PopConnection? && !l.PushConnection? ==> SameLease(s.workers[l.w], Next(s, l).workers[l.w])
  {
  }

  lemma StepKeepsSize(s: Pool, l: Label)
    requires Enabled(s, l) && SizeKept(s)
    ensures SizeKept(Next(s, l))
  {
    NextSum(s, l, Leases);
  }

  lemma StepKeepsJob(s: Pool, l: Label, id: nat)
    requires Enabled(s, l) && JobKept(s, id)
    ensures JobKept(Next(s, l), id)
  {
    NextSum(s, l, ToRun(id));
    JobMoves(s, l, id);
  }

  lemma JobMoves(s: Pool, l: Label, id: nat)
    requires Enabled(s, l) && s.taken <= |s.pushed|
    ensures Next(s, l).taken <= |Next(s, l).pushed|
    ensures !ByWorker(l) ==> Next(s, l).runs == s.runs && Next(s, l).taken == s.taken
    ensures |Next(s, l).workers| == |s.workers|
    ensures ByWorker(l) ==> (
      var pc, qc := s.workers[l.w], Next(s, l).workers[l.w];
      Occurs(Next(s, l).runs, id) + Weight(ToRun(id), qc) - One(id < Next(s, l).taken)
        == Occurs(s.runs, id) + Weight(ToRun(id), pc) - One(id < s.taken))
  {
    NextWorkers(s, l);
    if l.RunJob? {
      JobRuns(s, l, id);
    } else {
      JobStays(s, l, id);
    }
  }

  lemma {:induction false} JobRuns(s: Pool, l: Label, id: nat)
    requires Enabled(s, l) && l.RunJob? && |Next(s, l).workers| == |s.workers|
    ensures Occurs(Next(s, l).runs, id) + Weight(ToRun(id), Next(s, l).workers[l.w])
      == Occurs(s.runs, id) + Weight(ToRun(id), s.workers[l.w])
  {
    var pc := s.workers[l.w];
    assert Next(s, l).runs == s.runs + [pc.id] && Weight(ToRun(id), Next(s, l).workers[l.w]) == 0;
    assert Weight(ToRun(id), pc) == One(pc.id == id);
    OccursSnoc(s.runs, pc.id, id);
  }

  lemma JobStays(s: Pool, l: Label, id: nat)
    requires Enabled(s, l) && !l.RunJob? && s.taken <= |s.pushed|
    ensures Next(s, l).taken <= |Next(s, l).pushed| && Next(s, l).runs == s.runs
    ensures !ByWorker(l) ==> Next(s, l).taken == s.taken
    ensures |Next(s, l).workers| == |s.workers|
    ensures ByWorker(l) ==>
      Weight(ToRun(id), Next(s, l).workers[l.w]) - One(id < Next(s, l).taken)
        == Weight(ToRun(id), s.workers[l.w]) - One(id < s.taken)
  {
  }

  lemma StepKeepsAnswer(s: Pool, l: Label, op: nat)
    requires Enabled(s, l) && AnswerKept(s, op) && JobKept(s, op) && JobsKnown(s)
    ensures AnswerKept(Next(s, l), op)
  {
    NextSum(s, l, ToAnswer(op));
    if l.RunJob? {
      assert JobOf(s, s.workers[l.w]);
      RunMoves(s, l, op);
    } else if l.RunPosted? {
      PostedMoves(s, l, op);
    } else if l.Resume? {
      ResumeMoves(s, l, op);
    } else {
      OthersStay(s, l, op);
    }
  }

  lemma RunMoves(s: Pool, l: Label, op: nat)
    requires Enabled(s, l) && l.RunJob? && JobOf(s, s.workers[l.w])
    ensures Answered(Next(s, l), op) == Answered(s, op)
    ensures Weight(ToAnswer(op), s.workers[l.w]) == 0
    ensures Due(Next(s, l), op) == Due(s, op) + Weight(ToAnswer(op), Next(s, l).workers[l.w])
  {
    OccursSnoc(s.runs, s.workers[l.w].id, op);
  }

  lemma {:induction false} PostedMoves(s: Pool, l: Label, op: nat)
    requires Enabled(s, l) && l.RunPosted?
    ensures Answered(Next(s, l), op) == Answered(s, op) && Due(Next(s, l), op) == Due(s, op)
  {
    assert Next(s, l).posted == s.posted[..l.k] + s.posted[l.k + 1..] && Next(s, l).runs == s.runs;
    assert Next(s, l).resumed == Continue(s.resumed, s.posted[l.k], s.failed);
    OccursRemove(s.posted, l.k, op);
    ContinueOps(s.resumed, s.posted[l.k], s.failed, op);
  }

  lemma {:induction false} ResumeMoves(s: Pool, l: Label, op: nat)
    requires Enabled(s, l) && l.Resume?
    ensures Answered(Next(s, l), op) == Answered(s, op) + Weight(ToAnswer(op), s.workers[l.w])
    ensures |Next(s, l).workers| == |s.workers| && Weight(ToAnswer(op), Next(s, l).workers[l.w]) == 0
    ensures Due(Next(s, l), op) == Due(s, op)
  {
    var pc := s.workers[l.w];
    ResumeOne(s, l);
    if pc.job == Awaited(true) {
      OccursSnoc(s.posted, pc.id, op);
    } else {
      ContinueOps(s.resumed, pc.id, s.failed, op);
    }
  }

  lemma ResumeOne(s: Pool, l: Label)
    requires Enabled(s, l) && l.Resume?
    ensures var t, pc := Next(s, l), s.workers[l.w];
      && t == s.(posted := t.posted, resumed := t.resumed, workers := s.workers[l.w := Returning(pc.id, pc.conn)])
      && (if pc.job == Awaited(true) then t.posted == s.posted + [pc.id] && t.resumed == s.resumed
          else t.posted == s.posted && t.resumed == Continue(s.resumed, pc.id, s.failed))
  {
  }

  lemma OthersStay(s: Pool, l: Label, op: nat)
    requires Enabled(s, l) && !l.RunJob? && !l.RunPosted? && !l.Resume? && JobKept(s, op)
    ensures Answered(Next(s, l), op) == Answered(s, op) && Due(Next(s, l), op) == Due(s, op)
    ensures ByWorker(l) ==> Weight(ToAnswer(op), s.workers[l.w]) == 0
    ensures ByWorker(l) ==> |Next(s, l).workers| == |s.workers| && Weight(ToAnswer(op), Next(s, l).workers[l.w]) == 0
  {
  }

  lemma ContinueOps(rs: seq<Resumption>, done: nat, failed: set<nat>, op: nat)
    ensures Occurs(OpsOf(Continue(rs, done, failed)), op) == Occurs(OpsOf(rs), op) + One(done == op)
  {
    OccursSnoc(OpsOf(rs), done, op);
    assert Continue(rs, done, failed)[..|rs|] == rs;
  }

  lemma StepKeepsJobsKnown(s: Pool, l: Label)
    requires Enabled(s, l) && JobsKnown(s)
    ensures JobsKnown(Next(s, l))
  {
    NextWorkers(s, l);
    if ByWorker(l) { assert JobOf(s, s.workers[l.w]); }
    forall w | 0 <= w < |s.workers| ensures JobOf(Next(s, l), Next(s, l).workers[w]) {
      assert JobOf(s, s.workers[w]);
    }
  }

  lemma {:induction false} OpsHave(rs: seq<Resumption>, k: nat)
    requires k < |rs|
    ensures Occurs(OpsOf(rs), rs[k].op) > 0
  {
    OccursSnoc(OpsOf(rs[..|rs| - 1]), rs[|rs| - 1].op, rs[k].op);
    if k < |rs| - 1 { OpsHave(rs[..|rs| - 1], k); }
  }

  /** A job about to run has neither run, nor been marked, nor been answered. */
  lemma FreshJob(s: Pool, w: nat)
    requires At(s, w) && BeforeRun(s.workers[w])
    requires JobKept(s, s.workers[w].id) && AnswerKept(s, s.workers[w].id)
    ensures s.workers[w].id !in s.runs
    ensures forall k :: 0 <= k < |s.resumed| ==> s.resumed[k].op != s.workers[w].id
  {
    var id := s.workers[w].id;
    SumAtLeast(s.workers, w, ToRun(id));
    OccursIff(s.runs, id);
    forall k | 0 <= k < |s.resumed| ensures s.resumed[k].op != id {
      OpsHave(s.resumed, k);
    }
  }

  lemma MarkStays(s: Pool, l: Label)
    requires Enabled(s, l) && Marked(s) && (l.PushJob? ==> JobKept(s, |s.pushed|))
    requires !l.RunJob? && !l.RunPosted? && !l.Resume?
    ensures Marked(Next(s, l))
  {
    if l.PushJob? { OccursIff(s.runs, |s.pushed|); }
  }

  lemma MarkRun(s: Pool, l: Label)
    requires Enabled(s, l) && l.RunJob? && Marked(s) && JobOf(s, s.workers[l.w])
    requires JobKept(s, s.workers[l.w].id) && AnswerKept(s, s.workers[l.w].id)
    ensures Marked(Next(s, l))
  {
    FreshJob(s, l.w);
  }

  lemma MarkPosted(s: Pool, l: Label)
    requires Enabled(s, l) && l.RunPosted? && Marked(s) && AnswerKept(s, s.posted[l.k])
    ensures Marked(Next(s, l))
  {
    OccursIff(s.posted, s.posted[l.k]);
  }

  lemma MarkResume(s: Pool, l: Label)
    requires Enabled(s, l) && l.Resume? && Marked(s) && AnswerKept(s, s.workers[l.w].id)
    ensures Marked(Next(s, l))
  {
    SumAtLeast(s.workers, l.w, ToAnswer(s.workers[l.w].id));
  }

  lemma StepKeepsMarked(s: Pool, l: Label)
    requires Enabled(s, l) && Marked(s) && JobsKnown(s)
    requires (forall id: nat :: JobKept(s, id)) && (forall op: nat :: AnswerKept(s, op))
    ensures Marked(Next(s, l))
  {
    if l.RunJob? {
      assert JobOf(s, s.workers[l.w]);
      MarkRun(s, l);
    } else if l.RunPosted? {
      MarkPosted(s, l);
    } else if l.Resume? {
      MarkResume(s, l);
    } else {
      MarkStays(s, l);
    }
  }

  lemma StepKeepsExit(s: Pool, l: Label)
    requires Enabled(s, l) && ExitOk(s)
    ensures ExitOk(Next(s, l))
  {
    NextWorkers(s, l);
    var t := Next(s, l);
    if w :| 0 <= w < |t.workers| && t.workers[w].Exited? && !l.Exit? {
      assert s.workers[w].Exited?;
    }
  }

  lemma StepKeepsInv(s: Pool, l: Label)
    requires Enabled(s, l) && Inv(s)
    ensures Inv(Next(s, l))
  {
    forall c: nat ensures ConnectionKept(Next(s, l), c) { StepKeepsConnection(s, l, c); }
    forall id: nat ensures JobKept(Next(s, l), id) { StepKeepsJob(s, l, id); }
    forall op: nat ensures AnswerKept(Next(s, l), op) { StepKeepsAnswer(s, l, op); }
    StepKeepsSize(s, l);
    StepKeepsJobsKnown(s, l);
    StepKeepsMarked(s, l);
    StepKeepsExit(s, l);
  }

  lemma {:induction false} IdleSum(n: nat, k: Share)
    ensures Sum(Connected(n).workers, k) == if k.StepsLeft? then n else 0
  {
    if n > 0 {
      IdleSum(n - 1, k);
      assert Connected(n).workers[..n - 1] == Connected(n - 1).workers;
    }
  }

  lemma {:induction false} FullOccurs(n: nat, c: nat)
    ensures Occurs(Connected(n).connections, c) == One(c < n)
  {
    if n > 0 {
      FullOccurs(n - 1, c);
      assert Connected(n).connections[..n - 1] == Connected(n - 1).connections;
    }
  }

  lemma ConnectedInv(n: nat)
    ensures Inv(Connected(n))
  {
    var s := Connected(n);
    forall c: nat ensures ConnectionKept(s, c) { IdleSum(n, LeasesOf(c)); FullOccurs(n, c); }
    forall id: nat ensures JobKept(s, id) { IdleSum(n, ToRun(id)); }
    forall op: nat ensures AnswerKept(s, op) { IdleSum(n, ToAnswer(op)); }
    IdleSum(n, Leases);
  }

  lemma {:induction false} RunInv(n: nat, trace: seq<Pool>, labels: seq<Label>, i: nat)
    requires IsRun(n, trace, labels) && i < |trace|
    ensures Inv(trace[i]) && |trace[i].workers| == n
  {
    if i == 0 {
      ConnectedInv(n);
    } else {
      RunInv(n, trace, labels, i - 1);
      StepKeepsInv(trace[i - 1], labels[i - 1]);
      NextWorkers(trace[i - 1], labels[i - 1]);
    }
  }

  // ---------------------------------------------------------------- what every run keeps

  lemma {:induction false} SomeLease(ws: seq<Worker>, c: nat)
    requires Sum(ws, LeasesOf(c)) > 0
    ensures exists w :: 0 <= w < |ws| && HasLease(ws[w]) && ws[w].conn == c
  {
    var n := |ws| - 1;
    if Weight(LeasesOf(c), ws[n]) == 0 {
      SomeLease(ws[..n], c);
      var w :| 0 <= w < n && HasLease(ws[..n][w]) && ws[..n][w].conn == c;
      assert HasLease(ws[w]) && ws[w].conn == c;
    }
  }

  /** No connection is lost, made up or leased twice: with those leased they are always the n that
  Connect opened. */
  lemma ConnectionsConserved(n: nat, trace: seq<Pool>, labels: seq<Label>, i: nat)
    requires IsRun(n, trace, labels) && i < |trace|
    ensures var s := trace[i];
      && |s.connections| + Sum(s.workers, Leases) == n
      && (forall c :: c in s.connections ==> c < n)
      && (forall j, k :: 0 <= j < k < |s.connections| ==> s.connections[j] != s.connections[k])
      && (forall w: nat :: At(s, w) && HasLease(s.workers[w]) ==> s.workers[w].conn < n && s.workers[w].conn !in s.connections)
      && (forall v: nat, w: nat :: v < w && At(s, w) && HasLease(s.workers[v]) && HasLease(s.workers[w]) ==>
            s.workers[v].conn != s.workers[w].conn)
      && (forall c: nat :: c < n ==> c in s.connections || exists w: nat :: At(s, w) && HasLease(s.workers[w]) && s.workers[w].conn == c)
  {
    RunInv(n, trace, labels, i);
    var s := trace[i];
    forall c | c in s.connections ensures c < n {
      OccursIff(s.connections, c);
      assert ConnectionKept(s, c);
    }
    forall j, k | 0 <= j < k < |s.connections| ensures s.connections[j] != s.connections[k] {
      assert ConnectionKept(s, s.connections[j]);
      if s.connections[j] == s.connections[k] { OccursTwice(s.connections, j, k); }
    }
    forall w: nat | At(s, w) && HasLease(s.workers[w]) ensures s.workers[w].conn < n && s.workers[w].conn !in s.connections {
      LeaseExclusive(s, w);
    }
    forall v: nat, w: nat | v < w && At(s, w) && HasLease(s.workers[v]) && HasLease(s.workers[w])
      ensures s.workers[v].conn != s.workers[w].conn
    {
      assert ConnectionKept(s, s.workers[v].conn);
      SumOfTwo(s.workers, v, w, LeasesOf(s.workers[v].conn));
    }
    forall c: nat | c < n
      ensures c in s.connections || exists w: nat :: At(s, w) && HasLease(s.workers[w]) && s.workers[w].conn == c
    {
      assert ConnectionKept(s, c);
      OccursIff(s.connections, c);
      if c !in s.connections { SomeLease(s.workers, c); }
    }
  }

  lemma LeaseExclusive(s: Pool, w: nat)
    requires At(s, w) && HasLease(s.workers[w]) && ConnectionKept(s, s.workers[w].conn)
    ensures s.workers[w].conn < |s.workers| && s.workers[w].conn !in s.connections
  {
    var c := s.workers[w].conn;
    SumAtLeast(s.workers, w, LeasesOf(c));
    OccursIff(s.connections, c);
  }

  /** A worker never waits for a connection: whenever it has taken a job, one is in the pool. */
  lemma PopNeverBlocks(n: nat, trace: seq<Pool>, labels: seq<Label>, i: nat, w: nat)
    requires IsRun(n, trace, labels) && i < |trace| && At(trace[i], w) && trace[i].workers[w].Holding?
    ensures Enabled(trace[i], PopConnection(w))
  {
    RunInv(n, trace, labels, i);
    LeasesBelow(trace[i].workers, w);
  }

  /** Each job taken off the queue runs once, whatever EnsureHealthy answered and whichever jobs threw:
  it has run, or exactly one worker is about to run it. Jobs are taken in the order of pushes. */
  lemma EachJobRunsOnce(n: nat, trace: seq<Pool>, labels: seq<Label>, i: nat)
    requires IsRun(n, trace, labels) && i < |trace|
    ensures var s := trace[i];
      && (forall j, k :: 0 <= j < k < |s.runs| ==> s.runs[j] != s.runs[k])
      && (forall id: nat :: id in s.runs ==> id < s.taken <= |s.pushed|)
      && (forall id: nat :: id < s.taken ==> Sum(s.workers, ToRun(id)) == if id in s.runs then 0 else 1)
  {
    RunInv(n, trace, labels, i);
    var s := trace[i];
    forall j, k | 0 <= j < k < |s.runs| ensures s.runs[j] != s.runs[k] {
      assert JobKept(s, s.runs[j]);
      if s.runs[j] == s.runs[k] { OccursTwice(s.runs, j, k); }
    }
    forall id: nat ensures id in s.runs ==> id < s.taken <= |s.pushed|
      ensures id < s.taken ==> Sum(s.workers, ToRun(id)) == if id in s.runs then 0 else 1
    {
      assert JobKept(s, id);
      OccursIff(s.runs, id);
    }
  }

  /** Each awaited job that has run is answered once: its coroutine has been resumed, or its resumption
  is queued, or one worker is about to resume it. No other coroutine is resumed, and the await gives
  false exactly when the job threw. */
  lemma EachAwaitAnsweredOnce(n: nat, trace: seq<Pool>, labels: seq<Label>, i: nat)
    requires IsRun(n, trace, labels) && i < |trace|
    ensures var s := trace[i];
      && (forall op: nat :: Occurs(s.posted, op) + Occurs(OpsOf(s.resumed), op) + Sum(s.workers, ToAnswer(op))
            == One(IsAwaited(s, op) && op in s.runs))
      && (forall k :: 0 <= k < |s.resumed| ==>
            s.resumed[k].op in s.runs && (!s.resumed[k].ok <==> s.resumed[k].op in s.threw))
  {
    RunInv(n, trace, labels, i);
    var s := trace[i];
    forall op: nat
      ensures Answered(s, op) + Sum(s.workers, ToAnswer(op)) == One(IsAwaited(s, op) && op in s.runs)
    {
      assert JobKept(s, op) && AnswerKept(s, op);
      OccursIff(s.runs, op);
    }
    forall k | 0 <= k < |s.resumed| ensures s.resumed[k].op in s.runs {
      OpsHave(s.resumed, k);
      assert Answered(s, s.resumed[k].op) > 0;
    }
  }

  /** At step `j` a worker calls the job, and it throws or returns. */
  ghost predicate CallsAt(trace: seq<Pool>, labels: seq<Label>, j: nat, id: nat, throws: bool) {
    && j < |labels| && j < |trace|
    && labels[j].RunJob? && labels[j].throws == throws && At(trace[j], labels[j].w)
    && trace[j].workers[labels[j].w].Checked? && trace[j].workers[labels[j].w].id == id
  }

  lemma HistoryStep(s: Pool, l: Label, id: nat)
    requires Enabled(s, l)
    ensures id in Next(s, l).runs <==> id in s.runs || (l.RunJob? && s.workers[l.w].id == id)
    ensures id in Next(s, l).threw <==> id in s.threw || (l.RunJob? && s.workers[l.w].id == id && l.throws)
  {
  }

  ghost predicate Called(trace: seq<Pool>, labels: seq<Label>, i: nat, id: nat) {
    exists j, throws :: 0 <= j < i && CallsAt(trace, labels, j, id, throws)
  }

  ghost predicate CalledAndThrew(trace: seq<Pool>, labels: seq<Label>, i: nat, id: nat) {
    exists j :: 0 <= j < i && CallsAt(trace, labels, j, id, true)
  }

  ghost predicate HistoryAt(trace: seq<Pool>, labels: seq<Label>, i: nat, id: nat)
    requires i < |trace|
  {
    && (id in trace[i].runs <==> Called(trace, labels, i, id))
    && (id in trace[i].threw <==> CalledAndThrew(trace, labels, i, id))
  }

  lemma CalledMore(trace: seq<Pool>, labels: seq<Label>, i: nat, id: nat)
    ensures CalledAndThrew(trace, labels, i + 1, id) <==>
      CalledAndThrew(trace, labels, i, id) || CallsAt(trace, labels, i, id, true)
    ensures Called(trace, labels, i + 1, id) <==>
      Called(trace, labels, i, id) || CallsAt(trace, labels, i, id, true) || CallsAt(trace, labels, i, id, false)
  {
  }

  lemma HistoryRunStep(n: nat, trace: seq<Pool>, labels: seq<Label>, i: nat, id: nat)
    requires IsRun(n, trace, labels) && i < |labels| && HistoryAt(trace, labels, i, id)
    ensures HistoryAt(trace, labels, i + 1, id)
  {
    assert Enabled(trace[i], labels[i]) && trace[i + 1] == Next(trace[i], labels[i]);
    HistoryStep(trace[i], labels[i], id);
    CalledMore(trace, labels, i, id);
  }

  /** The history is what the steps say: a job has run if it was called, and has thrown if a call threw. */
  lemma {:induction false} HistoryIsCalls(n: nat, trace: seq<Pool>, labels: seq<Label>, i: nat, id: nat)
    requires IsRun(n, trace, labels) && i < |trace|
    ensures HistoryAt(trace, labels, i, id)
  {
    if i > 0 {
      HistoryIsCalls(n, trace, labels, i - 1, id);
      HistoryRunStep(n, trace, labels, i - 1, id);
    }
  }

  /** What a coroutine gets from its await: true if the call of its job returned, false if it threw. */
  lemma AwaitTellsOutcome(n: nat, trace: seq<Pool>, labels: seq<Label>, i: nat, k: nat)
    requires IsRun(n, trace, labels) && i < |trace| && k < |trace[i].resumed|
    ensures var r := trace[i].resumed[k];
      && (!r.ok <==> exists j :: 0 <= j < i && CallsAt(trace, labels, j, r.op, true))
      && (r.ok <==> exists j :: 0 <= j < i && CallsAt(trace, labels, j, r.op, false))
  {
    var r := trace[i].resumed[k];
    EachAwaitAnsweredOnce(n, trace, labels, i);
    HistoryIsCalls(n, trace, labels, i, r.op);
    forall j, j' | 0 <= j < i && 0 <= j' < i && CallsAt(trace, labels, j, r.op, true) && CallsAt(trace, labels, j', r.op, false)
      ensures false
    {
      CalledOnce(n, trace, labels, j, j', r.op, true, false);
    }
  }

  /** No job is called twice. */
  lemma CalledOnce(n: nat, trace: seq<Pool>, labels: seq<Label>, j: nat, j': nat, id: nat, throws: bool, throws': bool)
    requires IsRun(n, trace, labels)
    requires CallsAt(trace, labels, j, id, throws) && CallsAt(trace, labels, j', id, throws')
    ensures j == j'
  {
    if j < j' {
      NotCalledBefore(n, trace, labels, j, j', id, throws, throws');
    } else if j' < j {
      NotCalledBefore(n, trace, labels, j', j, id, throws', throws);
    }
  }

  lemma NotCalledBefore(n: nat, trace: seq<Pool>, labels: seq<Label>, j: nat, j': nat, id: nat, throws: bool, throws': bool)
    requires IsRun(n, trace, labels)
    requires CallsAt(trace, labels, j, id, throws) && CallsAt(trace, labels, j', id, throws')
    ensures !(j < j')
  {
    RunInv(n, trace, labels, j');
    FreshJob(trace[j'], labels[j'].w);
    HistoryIsCalls(n, trace, labels, j', id);
  }

  /** A worker about to resume a coroutine finds it unanswered, and marked exactly if its job threw. */
  lemma AnswerDue(s: Pool, w: nat)
    requires Inv(s) && At(s, w) && s.workers[w].Answering?
    ensures var id := s.workers[w].id;
      Answered(s, id) == 0 && Weight(ToAnswer(id), s.workers[w]) == 1 && (id in s.failed <==> id in s.threw)
  {
    var id := s.workers[w].id;
    SumAtLeast(s.workers, w, ToAnswer(id));
    assert AnswerKept(s, id) && JobKept(s, id);
  }

  // ---------------------------------------------------------------- the work ends

  /** An upper bound on the steps left if nothing new is pushed. */
  function Work(s: Pool): int {
    7 * (|s.pushed| - s.taken) + Sum(s.workers, StepsLeft) + |s.posted|
  }

  lemma StepsFall(s: Pool, l: Label)
    requires Enabled(s, l) && ByWorker(l) && |Next(s, l).workers| == |s.workers|
    ensures var t := Next(s, l);
      && t.pushed == s.pushed
      && Steps(t.workers[l.w]) + |t.posted| - 7 * t.taken < Steps(s.workers[l.w]) + |s.posted| - 7 * s.taken
  {
  }

  lemma WorkDrops(s: Pool, l: Label)
    requires Enabled(s, l) && !l.PushJob? && !l.Stop?
    ensures Work(Next(s, l)) < Work(s)
  {
    NextSum(s, l, StepsLeft);
    if ByWorker(l) { StepsFall(s, l); }
  }

  lemma {:induction false} DrainBounded(n: nat, trace: seq<Pool>, labels: seq<Label>, i: nat)
    requires IsRun(n, trace, labels) && i < |trace|
    requires forall k :: i <= k < |labels| ==> !labels[k].PushJob? && !labels[k].Stop?
    ensures |labels| - i <= Work(trace[i])
    decreases |labels| - i
  {
    RunInv(n, trace, labels, i);
    assert JobKept(trace[i], 0);
    if i < |labels| {
      WorkDrops(trace[i], labels[i]);
      DrainBounded(n, trace, labels, i + 1);
    }
  }

  /** The step a worker can make, if any. */
  function WorkersLabel(pc: Worker, w: nat, more: bool): Label {
    match pc
    case Holding(_, _) => PopConnection(w)
    case Leased(_, _, _) => CheckHealth(w, true)
    case Checked(_, _, _, _) => RunJob(w, false)
    case Answering(_, _, _) => Resume(w)
    case Returning(_, _) => PushConnection(w)
    case _ => if more then TakeJob(w) else Exit(w)
  }

  /** After the stop, a worker that has not left can make a step. */
  lemma WorkerCanStep(s: Pool, w: nat)
    requires Inv(s) && s.stop && At(s, w) && !s.workers[w].Exited?
    ensures Enabled(s, WorkersLabel(s.workers[w], w, s.taken < |s.pushed|))
  {
    assert JobKept(s, 0);
    if s.workers[w].Holding? { LeasesBelow(s.workers, w); }
  }

  lemma WorkSign(s: Pool)
    requires s.taken <= |s.pushed|
    ensures Work(s) >= 0
  {
  }

  lemma NothingToDo(s: Pool)
    requires s.taken <= |s.pushed| && SizeKept(s)
    requires forall l :: Enabled(s, l) ==> l.PushJob? || l.Stop?
    ensures s.posted == [] && forall w :: 0 <= w < |s.workers| ==> Settled(s, s.workers[w])
  {
    assert Enabled(s, RunPosted(0)) <==> s.posted != [];
    forall w | 0 <= w < |s.workers| ensures Settled(s, s.workers[w]) {
      var l := WorkersLabel(s.workers[w], w, s.taken < |s.pushed|);
      if s.workers[w].Holding? { LeasesBelow(s.workers, w); }
      assert Settled(s, s.workers[w]) || Enabled(s, l);
    }
  }

  /** Where it ends: when only a new push or a stop is possible, every connection is back, every job
  taken has run and every await has been answered. Before a stop all jobs pushed have been taken; after
  it at least those pushed before. */
  lemma StopsOnlyWhenDone(n: nat, trace: seq<Pool>, labels: seq<Label>, i: nat)
    requires IsRun(n, trace, labels) && i < |trace| && n > 0
    requires forall l :: Enabled(trace[i], l) ==> l.PushJob? || l.Stop?
    ensures var s := trace[i];
      && |s.connections| == n && s.posted == []
      && (forall id: nat :: id in s.runs <==> id < s.taken)
      && (forall op: nat :: Occurs(OpsOf(s.resumed), op) == One(IsAwaited(s, op) && op < s.taken))
      && (if s.stop then s.owed <= s.taken else s.taken == |s.pushed|)
  {
    RunInv(n, trace, labels, i);
    EachJobRunsOnce(n, trace, labels, i);
    EachAwaitAnsweredOnce(n, trace, labels, i);
    var s := trace[i];
    assert JobKept(s, 0);
    NothingToDo(s);
    assert Settled(s, s.workers[0]);
    NothingHeld(s.workers, Leases);
    forall id: nat ensures Sum(s.workers, ToRun(id)) == 0 && Sum(s.workers, ToAnswer(id)) == 0 {
      NothingHeld(s.workers, ToRun(id));
      NothingHeld(s.workers, ToAnswer(id));
    }
  }

  predicate Settled(s: Pool, pc: Worker) {
    if s.stop then pc.Exited? else pc.Exited? || (pc.Idle? && s.taken == |s.pushed|)
  }

  lemma {:induction false} NothingHeld(ws: seq<Worker>, k: Share)
    requires (forall w :: 0 <= w < |ws| ==> ws[w].Idle? || ws[w].Exited?) && !k.StepsLeft?
    ensures Sum(ws, k) == 0
  {
    if ws != [] { NothingHeld(ws[..|ws| - 1], k); }
  }

  ghost predicate StoppedWith(s: Pool, owed: nat) {
    s.stop && s.owed == owed
  }

  lemma StoppedStays(s: Pool, l: Label, owed: nat)
    requires Enabled(s, l) && StoppedWith(s, owed)
    ensures StoppedWith(Next(s, l), owed)
  {
  }

  /** The pool owes the jobs that had been pushed when it was stopped, and it is stopped only once. */
  lemma {:induction false} OwedIsPushed(n: nat, trace: seq<Pool>, labels: seq<Label>, j: nat, i: nat)
    requires IsRun(n, trace, labels) && j < i < |trace| && labels[j] == Stop
    ensures StoppedWith(trace[i], |trace[j].pushed|)
    decreases i
  {
    assert Enabled(trace[i - 1], labels[i - 1]) && trace[i - 1 + 1] == Next(trace[i - 1], labels[i - 1]);
    if j < i - 1 {
      OwedIsPushed(n, trace, labels, j, i - 1);
      StoppedStays(trace[i - 1], labels[i - 1], |trace[j].pushed|);
    }
  }

  lemma {:induction false} StoppedByStop(n: nat, trace: seq<Pool>, labels: seq<Label>, i: nat)
    requires IsRun(n, trace, labels) && i < |trace| && trace[i].stop
    ensures exists j :: 0 <= j < i && labels[j] == Stop
  {
    assert i > 0;
    assert Enabled(trace[i - 1], labels[i - 1]) && trace[i - 1 + 1] == Next(trace[i - 1], labels[i - 1]);
    if trace[i - 1].stop {
      StoppedByStop(n, trace, labels, i - 1);
    } else {
      assert labels[i - 1] == Stop;
    }
  }

  /** When Clear has joined the workers, the pool was stopped, every job pushed before that has run, and
  all n connections are in the pool for it to close. */
  lemma JoinedPoolIsWhole(n: nat, trace: seq<Pool>, labels: seq<Label>, i: nat)
    requires IsRun(n, trace, labels) && i < |trace| && n > 0
    requires forall w :: 0 <= w < n ==> At(trace[i], w) && trace[i].workers[w].Exited?
    ensures var s := trace[i];
      && s.stop && |s.connections| == n && (forall c: nat :: c < n ==> c in s.connections)
      && (forall id: nat :: id < s.owed ==> id in s.runs)
    ensures exists j :: 0 <= j < i && labels[j] == Stop && trace[i].owed == |trace[j].pushed|
  {
    RunInv(n, trace, labels, i);
    ConnectionsConserved(n, trace, labels, i);
    EachJobRunsOnce(n, trace, labels, i);
    var s := trace[i];
    assert s.workers[0].Exited?;
    StoppedByStop(n, trace, labels, i);
    var j :| 0 <= j < i && labels[j] == Stop;
    OwedIsPushed(n, trace, labels, j, i);
    NothingHeld(s.workers, Leases);
    forall id: nat ensures Sum(s.workers, ToRun(id)) == 0 {
      NothingHeld(s.workers, ToRun(id));
    }
    forall w: nat | At(s, w) ensures !HasLease(s.workers[w]) {
      assert s.workers[w].Exited?;
    }
  }

  /** When all workers have left, every connection is in the pool. */
  lemma AllHome(s: Pool, c: nat)
    requires Inv(s) && (forall w :: 0 <= w < |s.workers| ==> s.workers[w].Exited?) && c < |s.workers|
    ensures c in s.connections
  {
    assert ConnectionKept(s, c);
    NothingHeld(s.workers, LeasesOf(c));
    OccursIff(s.connections, c);
  }

  /** And if nothing is queued, every job has run. */
  lemma AllRun(s: Pool)
    requires Inv(s) && (forall w :: 0 <= w < |s.workers| ==> s.workers[w].Exited?) && s.taken == |s.pushed|
    ensures forall id: nat :: id in s.runs <==> id < |s.pushed|
  {
    forall id: nat ensures id in s.runs <==> id < |s.pushed| {
      assert JobKept(s, id);
      NothingHeld(s.workers, ToRun(id));
      OccursIff(s.runs, id);
    }
  }

  /** Forgetting workers that have left and closing the connections leaves nothing unaccounted for. */
  lemma ClearedInv(s: Pool)
    requires Inv(s) && forall w :: 0 <= w < |s.workers| ==> s.workers[w].Exited?
    ensures Inv(s.(workers := [], connections := []))
  {
    var t := s.(workers := [], connections := []);
    forall id: nat ensures JobKept(t, id) && AnswerKept(t, id) {
      assert JobKept(s, id) && AnswerKept(s, id);
      NothingHeld(s.workers, ToRun(id));
      NothingHeld(s.workers, ToAnswer(id));
    }
  }

  /** A job pushed after the workers have left is never run, so a coroutine waiting for it is never
  resumed: from then on nothing is taken off the queue. */
  lemma {:induction false} LateJobsNeverRun(n: nat, trace: seq<Pool>, labels: seq<Label>, i: nat, j: nat)
    requires IsRun(n, trace, labels) && i <= j < |trace|
    requires forall w :: 0 <= w < |trace[i].workers| ==> trace[i].workers[w].Exited?
    ensures trace[j].workers == trace[i].workers && trace[j].taken == trace[i].taken && trace[j].runs == trace[i].runs
  {
    if i < j {
      LateJobsNeverRun(n, trace, labels, i, j - 1);
      assert Enabled(trace[j - 1], labels[j - 1]);
    }
  }

  /** What holds a worker up: an empty job queue before the stop, and nothing else. Jobs can be pushed at
  any time, and a posted resumption can run at any time. */
  lemma WorkerWaitsOnlyFor(n: nat, trace: seq<Pool>, labels: seq<Label>, i: nat, w: nat)
    requires IsRun(n, trace, labels) && i < |trace| && w < n
    ensures var s := trace[i];
      && At(s, w) && (forall job :: Enabled(s, PushJob(job))) && (s.posted != [] ==> Enabled(s, RunPosted(0)))
      && (!s.stop ==> Enabled(s, Stop))
      && match s.workers[w]
         case Idle =>
           && (Enabled(s, TakeJob(w)) <==> s.taken < |s.pushed|)
           && (Enabled(s, Exit(w)) <==> s.stop && s.taken == |s.pushed|)
         case Holding(_, _) => Enabled(s, PopConnection(w))
         case Leased(_, _, _) => forall healthy :: Enabled(s, CheckHealth(w, healthy))
         case Checked(_, _, _, _) => forall throws :: Enabled(s, RunJob(w, throws))
         case Answering(_, _, _) => Enabled(s, Resume(w))
         case Returning(_, _) => Enabled(s, PushConnection(w))
         case Exited => forall l :: Enabled(s, l) && ByWorker(l) ==> l.w != w
  {
    RunInv(n, trace, labels, i);
    if trace[i].workers[w].Holding? { PopNeverBlocks(n, trace, labels, i, w); }
  }

  // ---------------------------------------------------------------- one worker on its own

  /** Whether the job with this number throws. */
  type Throws = nat -> bool

  predicate CanWork(s: Pool, w: nat) {
    At(s, w) && s.workers[w].Idle? && s.connections != [] && s.taken <= |s.pushed|
  }

  /** What a worker that is not disturbed does with one job: up to having a connection, and from then
  on. */
  function Begin(s: Pool, w: nat): (t: Pool)
    requires CanWork(s, w) && s.taken < |s.pushed|
    ensures At(t, w) && t.workers[w].Leased?
  {
    Next(Next(s, TakeJob(w)), PopConnection(w))
  }

  function RunLeased(s: Pool, w: nat, healthy: bool, throws: bool): (t: Pool)
    requires At(s, w) && s.workers[w].Leased?
    ensures At(t, w) && (t.workers[w].Answering? || t.workers[w].Returning?)
  {
    Next(Next(s, CheckHealth(w, healthy)), RunJob(w, throws))
  }

  lemma HealthIrrelevant(s: Pool, w: nat, healthy: bool, throws: bool)
    requires At(s, w) && s.workers[w].Leased?
    ensures RunLeased(s, w, healthy, throws) == RunLeased(s, w, true, throws)
  {
    var pc, qc := s.workers[w], RunLeased(s, w, true, throws).workers[w];
    UpdateTwice(s.workers, w, Checked(pc.id, pc.job, pc.conn, healthy), qc);
    UpdateTwice(s.workers, w, Checked(pc.id, pc.job, pc.conn, true), qc);
  }

  function Finish(s: Pool, w: nat, throws: bool): Pool
    requires At(s, w) && s.workers[w].Leased?
  {
    var ran := RunLeased(s, w, true, throws);
    Next(if ran.workers[w].Answering? then Next(ran, Resume(w)) else ran, PushConnection(w))
  }

  function Round(s: Pool, w: nat, throws: Throws): Pool
    requires CanWork(s, w) && s.taken < |s.pushed|
  {
    Finish(Begin(s, w), w, throws(s.taken))
  }

  function Range(a: nat, b: nat): seq<nat>
    requires a <= b
  {
    seq(b - a, i requires 0 <= i => a + i)
  }

  /** The awaited jobs among those numbered a up to b whose coroutines have a queue to be resumed in. */
  function ToPost(pushed: seq<Job>, a: nat, b: nat): seq<nat>
    requires a <= b <= |pushed|
  {
    if a == b then []
    else ToPost(pushed, a, b - 1) + (if pushed[b - 1] == Awaited(true) then [b - 1] else [])
  }

  lemma {:induction false} ToPostSplit(pushed: seq<Job>, a: nat, b: nat, c: nat)
    requires a <= b <= c <= |pushed|
    ensures ToPost(pushed, a, c) == ToPost(pushed, a, b) + ToPost(pushed, b, c)
  {
    if b < c { ToPostSplit(pushed, a, b, c - 1); }
  }

  /** `t` is `s` after its next jobs have been run one after the other, the resumptions posted in that
  order, and every connection returned. */
  ghost predicate RanInOrder(s: Pool, t: Pool) {
    && t.workers == s.workers && t.pushed == s.pushed && s.taken <= t.taken <= |s.pushed|
    && |t.connections| == |s.connections|
    && t.runs == s.runs + Range(s.taken, t.taken)
    && t.posted == s.posted + ToPost(s.pushed, s.taken, t.taken)
  }

  lemma RanTransitive(s: Pool, r: Pool, t: Pool)
    requires RanInOrder(s, r) && RanInOrder(r, t)
    ensures RanInOrder(s, t)
  {
    assert Range(s.taken, t.taken) == Range(s.taken, r.taken) + Range(r.taken, t.taken);
    ToPostSplit(s.pushed, s.taken, r.taken, t.taken);
  }

  lemma UpdateTwice(ws: seq<Worker>, w: nat, a: Worker, b: Worker)
    requires w < |ws|
    ensures ws[w := a][w := b] == ws[w := b]
  {
  }

  lemma BeginEffect(s: Pool, w: nat)
    requires CanWork(s, w) && s.taken < |s.pushed|
    ensures Begin(s, w) == s.(taken := s.taken + 1, connections := s.connections[1..],
      workers := s.workers[w := Leased(s.taken, s.pushed[s.taken], s.connections[0])])
  {
    UpdateTwice(s.workers, w, Holding(s.taken, s.pushed[s.taken]), Leased(s.taken, s.pushed[s.taken], s.connections[0]));
  }

  lemma RunEffect(s: Pool, w: nat, throws: bool)
    requires At(s, w) && s.workers[w].Leased?
    ensures var pc, t := s.workers[w], RunLeased(s, w, true, throws);
      && t.pushed == s.pushed && t.taken == s.taken && t.connections == s.connections && t.posted == s.posted
      && t.runs == s.runs + [pc.id]
      && t.workers == s.workers[w := if pc.job.Plain? then Returning(pc.id, pc.conn) else Answering(pc.id, pc.job, pc.conn)]
  {
    var pc := s.workers[w];
    UpdateTwice(s.workers, w, Checked(pc.id, pc.job, pc.conn, true), RunLeased(s, w, true, throws).workers[w]);
  }

  lemma EndEffect(s: Pool, w: nat)
    requires At(s, w) && s.workers[w].Returning?
    ensures Next(s, PushConnection(w)) == s.(connections := s.connections + [s.workers[w].conn], workers := s.workers[w := Idle])
  {
  }

  lemma FinishEffect(s: Pool, w: nat, throws: bool)
    requires At(s, w) && s.workers[w].Leased?
    ensures var t := Finish(s, w, throws);
      && t.pushed == s.pushed && t.taken == s.taken && t.runs == s.runs + [s.workers[w].id]
      && t.connections == s.connections + [s.workers[w].conn] && t.workers == s.workers[w := Idle]
  {
    var ran := RunLeased(s, w, true, throws);
    RunEffect(s, w, throws);
    EndEffect(if ran.workers[w].Answering? then Next(ran, Resume(w)) else ran, w);
    if ran.workers[w].Answering? {
      UpdateTwice(s.workers, w, ran.workers[w], Next(ran, Resume(w)).workers[w]);
      UpdateTwice(s.workers, w, Next(ran, Resume(w)).workers[w], Idle);
    } else {
      UpdateTwice(s.workers, w, ran.workers[w], Idle);
    }
  }

  lemma RoundRuns(s: Pool, w: nat, throws: Throws)
    requires CanWork(s, w) && s.taken < |s.pushed|
    ensures var t := Round(s, w, throws);
      && t.workers == s.workers && t.pushed == s.pushed && t.taken == s.taken + 1
      && t.connections == s.connections[1..] + [s.connections[0]]
      && t.runs == s.runs + [s.taken]
  {
    BeginEffect(s, w);
    FinishEffect(Begin(s, w), w, throws(s.taken));
    UpdateTwice(s.workers, w, Begin(s, w).workers[w], Idle);
  }

  lemma RoundPosts(s: Pool, w: nat, throws: Throws)
    requires CanWork(s, w) && s.taken < |s.pushed|
    ensures Round(s, w, throws).posted == s.posted + (if s.pushed[s.taken] == Awaited(true) then [s.taken] else [])
  {
  }

  lemma RoundResult(s: Pool, w: nat, throws: Throws)
    requires CanWork(s, w) && s.taken < |s.pushed|
    ensures Round(s, w, throws).taken == s.taken + 1 && RanInOrder(s, Round(s, w, throws))
  {
    RoundRuns(s, w, throws);
    RoundPosts(s, w, throws);
    assert Range(s.taken, s.taken + 1) == [s.taken];
    assert ToPost(s.pushed, s.taken, s.taken) == [];
  }

  function Drain(s: Pool, w: nat, throws: Throws): Pool
    requires CanWork(s, w)
    decreases |s.pushed| - s.taken
  {
    if s.taken == |s.pushed| then s
    else
      RoundResult(s, w, throws);
      Drain(Round(s, w, throws), w, throws)
  }

  lemma RoundLeavesRest(s: Pool, w: nat, throws: Throws)
    requires CanWork(s, w) && s.taken < |s.pushed|
    ensures var t := Round(s, w, throws);
      && CanWork(t, w) && t.stop == s.stop && |t.pushed| - t.taken == |s.pushed| - s.taken - 1
      && Drain(t, w, throws) == Drain(s, w, throws)
  {
    RoundResult(s, w, throws);
    RoundRuns(s, w, throws);
  }

  /** It runs all queued jobs in the order of pushes. */
  lemma {:induction false} DrainResult(s: Pool, w: nat, throws: Throws)
    requires CanWork(s, w)
    ensures Drain(s, w, throws).taken == |s.pushed| && RanInOrder(s, Drain(s, w, throws))
    decreases |s.pushed| - s.taken
  {
    if s.taken < |s.pushed| {
      var r := Round(s, w, throws);
      RoundResult(s, w, throws);
      DrainResult(r, w, throws);
      RanTransitive(s, r, Drain(r, w, throws));
    } else {
      assert s.runs + [] == s.runs && s.posted + [] == s.posted;
    }
  }
}
