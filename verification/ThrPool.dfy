/** The thread pool: workers that take jobs from the queue, and a destructor that
    puts one poison pill for each of them and joins them. */
module ThrPool {
  import opened Wrappers
  import opened FifoSpec

  datatype Item = Job(id: nat) | Pill

  datatype Shutdown = NotYet | PuttingPills | Joined

  /** A worker is idle (about to take), asleep or woken inside deq, running, or gone.
      `running` and `executed` name a job by its place in the order of taking; `jobs`
      is the number accepted by addJob.  `executed` is history. */
  datatype Pool = Pool(f: FifoSpec.State<Item>, n: nat, blocking: bool, jobs: nat,
                       idle: set<nat>, running: map<nat, nat>, exited: set<nat>,
                       executed: seq<nat>, dtor: Shutdown)

  datatype Action =
    | Add(t: nat, id: nat, wake: Option<nat>)
    | AddAgain(t: nat, wake: Option<nat>)
    | Destroy
    | PutPill(wake: Option<nat>)
    | Join
    | Take(w: nat, wake: Option<nat>)
    | FinishJob(w: nat)
    | SpuriousC(t: nat)
    | SpuriousP(t: nat)

  /** The thread that runs the destructor, as a producer. */
  const DTOR: nat := 0

  /** `ThrPool(sz)`: sz workers and a queue for 100 * sz jobs. */
  ghost function Init(sz: nat, blocking: bool): Pool
    requires sz > 0
  {
    Pool(FifoSpec.Init(100 * sz), sz, blocking, 0, Workers(sz), map[], {}, [], NotYet)
  }

  ghost function Workers(n: nat): (s: set<nat>)
    ensures |s| == n && forall x: nat :: x in s <==> x < n
  {
    if n == 0 then {} else Workers(n - 1) + {n - 1}
  }

  ghost function Pills(s: Pool): int {
    |s.f.enqueued| - s.jobs
  }

  ghost predicate Enabled(s: Pool, a: Action) {
    match a
    case Add(t, _, wake) =>
      s.dtor == NotYet && t !in s.f.asleepP && t !in s.f.wokenP && EnqWakes(s.f, wake)
    case AddAgain(t, wake) =>
      && s.dtor == NotYet && t in s.f.wokenP && t in s.f.carrying && s.f.carrying[t].Job?
      && EnqWakes(s.f, wake)
    // no thread is using the pool or blocked on it
    case Destroy => s.dtor == NotYet && s.f.asleepP == {} && s.f.wokenP == {}
    case PutPill(wake) =>
      s.dtor == PuttingPills && Pills(s) < s.n && DTOR !in s.f.asleepP && EnqWakes(s.f, wake)
    case Join => s.dtor == PuttingPills && Pills(s) == s.n && |s.exited| == s.n
    case Take(w, wake) => (w in s.idle || w in s.f.wokenC) && DeqWakes(s.f, wake)
    case FinishJob(w) => w in s.running
    case SpuriousC(t) => t in s.f.asleepC
    case SpuriousP(t) => t in s.f.asleepP
  }

  ghost function Stored(s: Pool, t: nat, e: Item, wake: Option<nat>): Pool {
    s.(f := EnqPass(s.f, t, e, s.blocking || e.Pill?, wake),
       jobs := if e.Job? && HasRoom(s.f) then s.jobs + 1 else s.jobs)
  }

  /** `do_worker`: a pill ends the worker, a job is run. */
  ghost function Taken(s: Pool, w: nat, wake: Option<nat>): Pool
    requires DeqWakes(s.f, wake)
  {
    var s' := s.(f := DeqPass(s.f, w, wake), idle := s.idle - {w});
    if s.f.q == [] then s'
    else if s.f.q[0].Pill? then s'.(exited := s.exited + {w})
    else s'.(running := s.running[w := |s.f.dequeued|])
  }

  ghost function Do(s: Pool, a: Action): Pool
    requires Enabled(s, a)
  {
    match a
    case Add(t, id, wake) => Stored(s, t, Job(id), wake)
    case AddAgain(t, wake) => Stored(s, t, s.f.carrying[t], wake)
    case Destroy => s.(dtor := PuttingPills)
    case PutPill(wake) => Stored(s, DTOR, Pill, wake)
    case Join => s.(dtor := Joined)
    case Take(w, wake) => Taken(s, w, wake)
    case FinishJob(w) =>
      s.(running := s.running - {w}, idle := s.idle + {w}, executed := s.executed + [s.running[w]])
    case SpuriousC(t) => s.(f := WakeConsumer(s.f, Some(t)))
    case SpuriousP(t) => s.(f := WakeProducer(s.f, Some(t)))
  }

  ghost predicate Legal(sz: nat, blocking: bool, acts: seq<Action>)
    requires sz > 0
    decreases |acts|, 0
  {
    acts == [] ||
    (Legal(sz, blocking, acts[..|acts| - 1]) && Enabled(After(sz, blocking, acts[..|acts| - 1]), acts[|acts| - 1]))
  }

  ghost function After(sz: nat, blocking: bool, acts: seq<Action>): Pool
    requires sz > 0 && Legal(sz, blocking, acts)
    decreases |acts|, 1
  {
    if acts == [] then Init(sz, blocking)
    else Do(After(sz, blocking, acts[..|acts| - 1]), acts[|acts| - 1])
  }

  /** Jobs taken so far. */
  ghost function JobsTaken(s: Pool): int {
    if |s.f.dequeued| <= s.jobs then |s.f.dequeued| else s.jobs
  }

  ghost function PillsTaken(s: Pool): int {
    |s.f.dequeued| - JobsTaken(s)
  }

  ghost predicate QueueOk(s: Pool) {
    && FifoSpec.Inv(s.f) && s.n > 0 && s.f.max == 100 * s.n
    && JobsFirst(s.f.enqueued, s.jobs) && Pills(s) <= s.n
  }

  /** The first `jobs` elements are jobs, the others are pills. */
  ghost predicate JobsFirst(items: seq<Item>, jobs: nat) {
    jobs <= |items| && forall p :: 0 <= p < |items| ==> (items[p].Pill? <==> p >= jobs)
  }

  ghost predicate ProducersOk(s: Pool) {
    && (s.dtor == NotYet ==>
         Pills(s) == 0 && forall t :: t in s.f.asleepP + s.f.wokenP ==> t in s.f.carrying && s.f.carrying[t].Job?)
    && (s.dtor != NotYet ==> s.f.asleepP + s.f.wokenP <= {DTOR})
    && (s.dtor == PuttingPills && DTOR in s.f.asleepP ==> Pills(s) < s.n)
    && (s.dtor == Joined ==> Pills(s) == s.n && |s.exited| == s.n)
  }

  ghost predicate Apart(a: set<nat>, b: set<nat>, c: set<nat>, d: set<nat>, e: set<nat>) {
    && (forall x :: x in a ==> x !in b && x !in c && x !in d && x !in e)
    && (forall x :: x in b ==> x !in c && x !in d && x !in e)
    && (forall x :: x in c ==> x !in d && x !in e)
    && (forall x :: x in d ==> x !in e)
  }

  /** The n workers are divided among the five sets, and a worker that has gone took
      one pill. */
  ghost predicate WorkersOk(s: Pool) {
    && Divided(s.idle, s.f.asleepC, s.f.wokenC, s.running.Keys, s.exited, s.n)
    && |s.exited| == PillsTaken(s)
  }

  ghost predicate Divided(a: set<nat>, b: set<nat>, c: set<nat>, d: set<nat>, e: set<nat>, n: nat) {
    Apart(a, b, c, d, e) && |a| + |b| + |c| + |d| + |e| == n
  }

  ghost predicate JobsOk(s: Pool) {
    Accounted(s.running, s.executed, JobsTaken(s))
  }

  /** Each of the jobs taken is either running on one worker or was executed once. */
  ghost predicate Accounted(running: map<nat, nat>, executed: seq<nat>, taken: int) {
    && (forall w :: w in running ==> running[w] < taken)
    && (forall v, w :: v in running && w in running && running[v] == running[w] ==> v == w)
    && (forall i :: 0 <= i < |executed| ==> executed[i] < taken)
    && (forall i, j :: 0 <= i < j < |executed| ==> executed[i] != executed[j])
    && (forall p :: 0 <= p < taken ==> (p in executed <==> !IsRunning(running, p)))
  }

  ghost predicate IsRunning(running: map<nat, nat>, p: nat) {
    exists w :: w in running && running[w] == p
  }

  ghost predicate PoolInv(s: Pool) {
    QueueOk(s) && ProducersOk(s) && WorkersOk(s) && JobsOk(s)
  }

  lemma InitOk(sz: nat, blocking: bool)
    requires sz > 0
    ensures PoolInv(Init(sz, blocking))
  {}

  ghost predicate MayStore(s: Pool, t: nat, e: Item) {
    && t !in s.f.asleepP
    && if e.Pill? then s.dtor == PuttingPills && t == DTOR && Pills(s) < s.n else s.dtor == NotYet
  }

  lemma StoredKeepsQueue(s: Pool, t: nat, e: Item, wake: Option<nat>)
    requires QueueOk(s) && ProducersOk(s) && MayStore(s, t, e) && EnqWakes(s.f, wake)
    ensures QueueOk(Stored(s, t, e, wake)) && JobsTaken(Stored(s, t, e, wake)) == JobsTaken(s)
  {
    EnqPassKeeps(s.f, t, e, s.blocking || e.Pill?, wake);
    StoredShape(s, t, e, wake);
  }

  lemma StoredShape(s: Pool, t: nat, e: Item, wake: Option<nat>)
    requires EnqWakes(s.f, wake)
    ensures var s' := Stored(s, t, e, wake);
            && s'.f.enqueued == (if HasRoom(s.f) then s.f.enqueued + [e] else s.f.enqueued)
            && s'.f.dequeued == s.f.dequeued && s'.f.max == s.f.max && s'.n == s.n
  {}

  lemma StoredKeepsProducers(s: Pool, t: nat, e: Item, wake: Option<nat>)
    requires ProducersOk(s) && MayStore(s, t, e) && EnqWakes(s.f, wake)
    ensures ProducersOk(Stored(s, t, e, wake))
  {
    var s' := Stored(s, t, e, wake);
    assert s'.f.asleepP + s'.f.wokenP <= s.f.asleepP + s.f.wokenP + {t};
    if !HasRoom(s.f) {
      assert Pills(s') == Pills(s);
    }
  }

  lemma StoredKeepsWorkers(s: Pool, t: nat, e: Item, wake: Option<nat>)
    requires WorkersOk(s) && EnqWakes(s.f, wake) && JobsTaken(Stored(s, t, e, wake)) == JobsTaken(s)
    ensures WorkersOk(Stored(s, t, e, wake))
  {
    if HasRoom(s.f) && wake.Some? {
      SleeperIsWoken(s.idle, s.f.asleepC, s.f.wokenC, s.running.Keys, s.exited, s.n, wake.value);
    }
  }

  lemma StoredKeepsJobs(s: Pool, t: nat, e: Item, wake: Option<nat>)
    requires JobsOk(s) && JobsTaken(Stored(s, t, e, wake)) == JobsTaken(s)
    ensures JobsOk(Stored(s, t, e, wake))
  {}

  lemma StoredKeeps(s: Pool, t: nat, e: Item, wake: Option<nat>)
    requires PoolInv(s) && MayStore(s, t, e) && EnqWakes(s.f, wake)
    ensures PoolInv(Stored(s, t, e, wake))
  {
    StoredKeepsQueue(s, t, e, wake);
    StoredKeepsProducers(s, t, e, wake);
    StoredKeepsWorkers(s, t, e, wake);
    StoredKeepsJobs(s, t, e, wake);
  }

  /** The element at the front is a pill exactly when all jobs have been taken. */
  lemma FrontOfQueue(s: Pool)
    requires QueueOk(s) && s.f.q != []
    ensures s.f.q[0] == s.f.enqueued[|s.f.dequeued|]
    ensures s.f.q[0].Pill? <==> |s.f.dequeued| >= s.jobs
  {}

  lemma TakenKeepsQueue(s: Pool, w: nat, wake: Option<nat>)
    requires QueueOk(s) && w !in s.f.asleepC && DeqWakes(s.f, wake)
    ensures QueueOk(Taken(s, w, wake))
    ensures Taken(s, w, wake).f.enqueued == s.f.enqueued
  {
    DeqPassKeeps(s.f, w, wake);
    DeqPassFrame(s.f, w, wake);
    var s' := Taken(s, w, wake);
    assert s'.f == DeqPass(s.f, w, wake) && s'.n == s.n && s'.jobs == s.jobs;
  }

  lemma TakenKeepsProducers(s: Pool, w: nat, wake: Option<nat>)
    requires ProducersOk(s) && DeqWakes(s.f, wake) && w !in s.exited
    requires s.dtor == Joined ==> s.f.q == []
    ensures ProducersOk(Taken(s, w, wake))
  {
    var s' := Taken(s, w, wake);
    assert s'.f.asleepP + s'.f.wokenP <= s.f.asleepP + s.f.wokenP;
  }

  /** Which set worker w goes to. */
  lemma TakenMoves(s: Pool, w: nat, wake: Option<nat>)
    requires DeqWakes(s.f, wake)
    ensures var s' := Taken(s, w, wake);
            && s'.idle == s.idle - {w} && s'.f.wokenC == s.f.wokenC - {w}
            && s'.f.asleepC == (if s.f.q == [] then s.f.asleepC + {w} else s.f.asleepC)
            && s'.exited == (if s.f.q != [] && s.f.q[0].Pill? then s.exited + {w} else s.exited)
            && s'.running.Keys == (if s.f.q != [] && s.f.q[0].Job? then s.running.Keys + {w} else s.running.Keys)
            && s'.jobs == s.jobs && s'.n == s.n
            && s'.f.dequeued == (if s.f.q == [] then s.f.dequeued else s.f.dequeued + [s.f.q[0]])
  {
    DeqPassFrame(s.f, w, wake);
  }

  lemma TakenCountsPills(s: Pool, w: nat, wake: Option<nat>)
    requires QueueOk(s) && DeqWakes(s.f, wake)
    ensures PillsTaken(Taken(s, w, wake)) == PillsTaken(s) + if s.f.q != [] && s.f.q[0].Pill? then 1 else 0
  {
    DeqPassFrame(s.f, w, wake);
    if s.f.q != [] {
      FrontOfQueue(s);
    }
  }

  lemma TakenKeepsWorkers(s: Pool, w: nat, wake: Option<nat>)
    requires WorkersOk(s) && (w in s.idle || w in s.f.wokenC) && DeqWakes(s.f, wake)
    requires PillsTaken(Taken(s, w, wake)) == PillsTaken(s) + if s.f.q != [] && s.f.q[0].Pill? then 1 else 0
    ensures WorkersOk(Taken(s, w, wake))
  {
    TakenMoves(s, w, wake);
    var s' := Taken(s, w, wake);
    Leaving(s.idle, s.f.wokenC, w);
    Entering(s.f.asleepC, w);
    Entering(s.running.Keys, w);
    Entering(s.exited, w);
  }

  lemma Leaving(a: set<nat>, c: set<nat>, w: nat)
    requires (w in a && w !in c) || (w in c && w !in a)
    ensures |a - {w}| + |c - {w}| == |a| + |c| - 1
  {
    if w in a {
      assert c - {w} == c;
    } else {
      assert a - {w} == a;
    }
  }

  lemma Entering(b: set<nat>, w: nat)
    requires w !in b
    ensures |b + {w}| == |b| + 1
  {}

  lemma TakenKeepsJobs(s: Pool, w: nat, wake: Option<nat>)
    requires QueueOk(s) && JobsOk(s) && w !in s.running && DeqWakes(s.f, wake)
    ensures JobsOk(Taken(s, w, wake))
  {
    TakenShape(s, w, wake);
    if s.f.q != [] {
      FrontOfQueue(s);
      if s.f.q[0].Job? {
        JobStarts(s.running, s.executed, JobsTaken(s), w);
      }
    }
  }

  lemma TakenShape(s: Pool, w: nat, wake: Option<nat>)
    requires DeqWakes(s.f, wake)
    ensures var s' := Taken(s, w, wake);
            && s'.executed == s.executed && s'.jobs == s.jobs
            && |s'.f.dequeued| == |s.f.dequeued| + (if s.f.q == [] then 0 else 1)
            && s'.running == (if s.f.q != [] && s.f.q[0].Job? then s.running[w := |s.f.dequeued|] else s.running)
  {}

  lemma JobStarts(running: map<nat, nat>, executed: seq<nat>, taken: nat, w: nat)
    requires Accounted(running, executed, taken) && w !in running
    ensures Accounted(running[w := taken], executed, taken + 1)
  {
    var running' := running[w := taken];
    forall p | 0 <= p < taken + 1
      ensures p in executed <==> !IsRunning(running', p)
    {
      if p == taken {
        assert running'[w] == p;
      } else if IsRunning(running, p) {
        var v :| v in running && running[v] == p;
        assert v in running' && running'[v] == p;
      }
    }
  }

  /** After the join there is nothing left to take. */
  lemma JoinedMeansEmpty(s: Pool)
    requires QueueOk(s) && WorkersOk(s) && Pills(s) == s.n && |s.exited| == s.n
    ensures s.f.q == [] && s.idle == {} && s.f.wokenC == {} && s.f.asleepC == {} && s.running == map[]
  {
    assert s.running.Keys == {};
    assert |s.f.enqueued| == |s.f.dequeued| + |s.f.q|;
  }

  lemma TakenKeeps(s: Pool, w: nat, wake: Option<nat>)
    requires PoolInv(s) && Enabled(s, Take(w, wake))
    ensures PoolInv(Taken(s, w, wake))
  {
    if s.dtor == Joined {
      JoinedMeansEmpty(s);
    }
    TakenKeepsQueue(s, w, wake);
    TakenKeepsProducers(s, w, wake);
    TakenCountsPills(s, w, wake);
    TakenKeepsWorkers(s, w, wake);
    TakenKeepsJobs(s, w, wake);
  }

  lemma FinishKeepsJobs(s: Pool, w: nat)
    requires JobsOk(s) && w in s.running
    ensures JobsOk(Do(s, FinishJob(w)))
  {
    JobEnds(s.running, s.executed, JobsTaken(s), w);
  }

  lemma JobEnds(running: map<nat, nat>, executed: seq<nat>, taken: int, w: nat)
    requires Accounted(running, executed, taken) && w in running
    ensures Accounted(running - {w}, executed + [running[w]], taken)
  {
    var running' := running - {w};
    assert IsRunning(running, running[w]);
    forall p | 0 <= p < taken
      ensures p in executed + [running[w]] <==> !IsRunning(running', p)
    {
      if p != running[w] && IsRunning(running, p) {
        var v :| v in running && running[v] == p;
        assert v in running' && running'[v] == p;
      }
    }
  }

  lemma FinishKeepsWorkers(s: Pool, w: nat)
    requires WorkersOk(s) && w in s.running
    ensures WorkersOk(Do(s, FinishJob(w)))
  {
    assert Do(s, FinishJob(w)).running.Keys == s.running.Keys - {w};
    RunnerIsIdle(s.idle, s.f.asleepC, s.f.wokenC, s.running.Keys, s.exited, s.n, w);
  }

  lemma RunnerIsIdle(a: set<nat>, b: set<nat>, c: set<nat>, d: set<nat>, e: set<nat>, n: nat, w: nat)
    requires Divided(a, b, c, d, e, n) && w in d
    ensures Divided(a + {w}, b, c, d - {w}, e, n)
  {
    Leaving(d, {}, w);
    Entering(a, w);
  }

  lemma FinishKeeps(s: Pool, w: nat)
    requires PoolInv(s) && w in s.running
    ensures PoolInv(Do(s, FinishJob(w)))
  {
    FinishKeepsJobs(s, w);
    FinishKeepsWorkers(s, w);
  }

  /** s' differs from s only in who is asleep and who is woken. */
  ghost predicate OnlyWakes(s: Pool, s': Pool) {
    && s' == s.(f := s.f.(asleepC := s'.f.asleepC, wokenC := s'.f.wokenC,
                          asleepP := s'.f.asleepP, wokenP := s'.f.wokenP))
    && s'.f.asleepP <= s.f.asleepP && s'.f.wokenP <= s.f.asleepP + s.f.wokenP
  }

  lemma WakingKeepsProducers(s: Pool, s': Pool)
    requires ProducersOk(s) && OnlyWakes(s, s')
    ensures ProducersOk(s')
  {
    assert s'.f.asleepP + s'.f.wokenP <= s.f.asleepP + s.f.wokenP;
  }

  lemma WakingKeepsJobs(s: Pool, s': Pool)
    requires JobsOk(s) && OnlyWakes(s, s')
    ensures JobsOk(s')
  {}

  lemma WakingKeepsQueue(s: Pool, s': Pool)
    requires QueueOk(s) && OnlyWakes(s, s') && FifoSpec.Inv(s'.f)
    ensures QueueOk(s')
  {}

  lemma WakeConsumerKeepsWorkers(s: Pool, t: nat)
    requires WorkersOk(s) && t in s.f.asleepC
    ensures WorkersOk(s.(f := WakeConsumer(s.f, Some(t))))
  {
    SleeperIsWoken(s.idle, s.f.asleepC, s.f.wokenC, s.running.Keys, s.exited, s.n, t);
  }

  lemma SleeperIsWoken(a: set<nat>, b: set<nat>, c: set<nat>, d: set<nat>, e: set<nat>, n: nat, w: nat)
    requires Divided(a, b, c, d, e, n) && w in b
    ensures Divided(a, b - {w}, c + {w}, d, e, n)
  {
    Leaving(b, {}, w);
    Entering(c, w);
  }

  lemma WakeProducerKeepsWorkers(s: Pool, t: nat)
    requires WorkersOk(s) && t in s.f.asleepP
    ensures WorkersOk(Do(s, SpuriousP(t)))
  {}

  lemma SpuriousShape(s: Pool, a: Action)
    requires Enabled(s, a) && (a.SpuriousC? || a.SpuriousP?)
    ensures OnlyWakes(s, Do(s, a))
  {}

  lemma SpuriousKeepsQueue(s: Pool, a: Action)
    requires QueueOk(s) && Enabled(s, a) && (a.SpuriousC? || a.SpuriousP?)
    ensures QueueOk(Do(s, a))
  {
    SpuriousShape(s, a);
    if a.SpuriousC? {
      WakeConsumerKeeps(s.f, a.t);
    } else {
      WakeProducerKeeps(s.f, a.t);
    }
    WakingKeepsQueue(s, Do(s, a));
  }

  lemma SpuriousKeeps(s: Pool, a: Action)
    requires PoolInv(s) && Enabled(s, a) && (a.SpuriousC? || a.SpuriousP?)
    ensures PoolInv(Do(s, a))
  {
    SpuriousShape(s, a);
    SpuriousKeepsQueue(s, a);
    WakingKeepsProducers(s, Do(s, a));
    WakingKeepsJobs(s, Do(s, a));
    if a.SpuriousC? {
      WakeConsumerKeepsWorkers(s, a.t);
    } else {
      WakeProducerKeepsWorkers(s, a.t);
    }
  }

  lemma StepKeeps(s: Pool, a: Action)
    requires PoolInv(s) && Enabled(s, a)
    ensures PoolInv(Do(s, a))
  {
    match a
    case Add(t, id, wake) => StoredKeeps(s, t, Job(id), wake);
    case AddAgain(t, wake) => StoredKeeps(s, t, s.f.carrying[t], wake);
    case Destroy => DtorKeeps(s, PuttingPills);
    case PutPill(wake) => StoredKeeps(s, DTOR, Pill, wake);
    case Join => DtorKeeps(s, Joined);
    case Take(w, wake) => TakenKeeps(s, w, wake);
    case FinishJob(w) => FinishKeeps(s, w);
    case SpuriousC(t) => SpuriousKeeps(s, a);
    case SpuriousP(t) => SpuriousKeeps(s, a);
  }

  lemma DtorKeeps(s: Pool, dtor: Shutdown)
    requires PoolInv(s) && ProducersOk(s.(dtor := dtor))
    ensures PoolInv(s.(dtor := dtor))
  {}

  lemma {:induction false} Safe(sz: nat, blocking: bool, acts: seq<Action>)
    requires sz > 0 && Legal(sz, blocking, acts)
    ensures PoolInv(After(sz, blocking, acts))
  {
    if acts == [] {
      InitOk(sz, blocking);
    } else {
      Safe(sz, blocking, acts[..|acts| - 1]);
      StepKeeps(After(sz, blocking, acts[..|acts| - 1]), acts[|acts| - 1]);
    }
  }

  /** When the destructor has joined its workers, the queue is empty, each of the n
      workers took one pill, and every job that addJob accepted was executed exactly
      once: `executed` lists each of their places in the queue, none twice. */
  lemma ShutdownIsComplete(sz: nat, blocking: bool, acts: seq<Action>)
    requires sz > 0 && Legal(sz, blocking, acts) && After(sz, blocking, acts).dtor == Joined
    ensures var s := After(sz, blocking, acts);
            && s.f.q == [] && |s.exited| == s.n == PillsTaken(s)
            && s.running == map[] && s.f.dequeued == s.f.enqueued
            && (forall p :: 0 <= p < |s.f.enqueued| ==> (s.f.enqueued[p].Job? <==> p < s.jobs))
            && (forall p: nat :: p in s.executed <==> p < s.jobs)
            && (forall i, j :: 0 <= i < j < |s.executed| ==> s.executed[i] != s.executed[j])
  {
    var s := After(sz, blocking, acts);
    Safe(sz, blocking, acts);
    JoinedMeansEmpty(s);
    assert s.f.enqueued == s.f.dequeued + [] == s.f.dequeued;
    assert JobsTaken(s) == s.jobs;
  }

  // ---------- The destructor always gets there ----------

  ghost predicate Spurious(a: Action) {
    a.SpuriousC? || a.SpuriousP?
  }

  ghost predicate ShuttingDown(s: Pool) {
    s.dtor == PuttingPills
  }

  /** Work left: pills to put, elements to take, jobs to run, threads to settle. */
  ghost function Work(s: Pool): int {
    5 * (s.n - Pills(s)) + 3 * |s.f.q| + 2 * |s.running.Keys| + |s.idle| + |s.f.wokenC|
      + if s.dtor == PuttingPills && DTOR !in s.f.asleepP then 1 else 0
  }

  lemma WorkNotNegative(s: Pool)
    requires PoolInv(s)
    ensures Work(s) >= 0
  {}

  lemma PillUsesWork(s: Pool, wake: Option<nat>)
    requires FifoSpec.Inv(s.f) && Enabled(s, PutPill(wake))
    ensures Work(Do(s, PutPill(wake))) < Work(s)
  {
    var s' := Do(s, PutPill(wake));
    if HasRoom(s.f) {
      assert s'.f.q == s.f.q + [Pill] && Pills(s') == Pills(s) + 1;
      assert |s'.f.wokenC| <= |s.f.wokenC| + 1;
    }
  }

  lemma TakeUsesWork(s: Pool, w: nat, wake: Option<nat>)
    requires w in s.idle <==> w !in s.f.wokenC
    requires DeqWakes(s.f, wake)
    ensures Work(Taken(s, w, wake)) < Work(s)
  {
    var s' := Taken(s, w, wake);
    TakenCounts(s, w, wake);
    Leaving(s.idle, s.f.wokenC, w);
    assert 5 * (s'.n - Pills(s')) == 5 * (s.n - Pills(s));
  }

  lemma TakenFrame(s: Pool, w: nat, wake: Option<nat>)
    requires DeqWakes(s.f, wake)
    ensures var s' := Taken(s, w, wake);
            && s'.f == DeqPass(s.f, w, wake) && s'.dtor == s.dtor && s'.n == s.n && s'.jobs == s.jobs
  {}

  lemma GrowsByOne(a: set<nat>, b: set<nat>, w: nat)
    requires b == a || b == a + {w}
    ensures |a| <= |b| <= |a| + 1
  {
    if w in a {
      assert a + {w} == a;
    }
  }

  lemma TakenCounts(s: Pool, w: nat, wake: Option<nat>)
    requires DeqWakes(s.f, wake)
    ensures var s' := Taken(s, w, wake);
            && s'.idle == s.idle - {w} && s'.f.wokenC == s.f.wokenC - {w}
            && s'.dtor == s.dtor && s'.n == s.n && Pills(s') == Pills(s)
            && |s'.f.q| == (if s.f.q == [] then 0 else |s.f.q| - 1)
            && |s'.running.Keys| <= |s.running.Keys| + (if s.f.q == [] then 0 else 1)
  {
    TakenMoves(s, w, wake);
    TakenFrame(s, w, wake);
    DeqPassFrame(s.f, w, wake);
    GrowsByOne(s.running.Keys, Taken(s, w, wake).running.Keys, w);
  }

  /** During shutdown every step except a spurious wake-up uses up some work. */
  lemma WorkDecreases(s: Pool, a: Action)
    requires PoolInv(s) && ShuttingDown(s) && Enabled(s, a) && !Spurious(a)
    ensures Work(Do(s, a)) < Work(s)
  {
    match a
    case PutPill(wake) => PillUsesWork(s, wake);
    case Join => JoinedMeansEmpty(s);
    case Take(w, wake) => TakeStepUsesWork(s, w, wake);
    case FinishJob(w) => FinishUsesWork(s, w);
  }

  lemma TakeStepUsesWork(s: Pool, w: nat, wake: Option<nat>)
    requires WorkersOk(s) && Enabled(s, Take(w, wake))
    ensures Work(Do(s, Take(w, wake))) < Work(s)
  {
    TakeUsesWork(s, w, wake);
  }

  lemma FinishUsesWork(s: Pool, w: nat)
    requires w in s.running
    ensures Work(Do(s, FinishJob(w))) < Work(s)
  {
    assert Do(s, FinishJob(w)).running.Keys == s.running.Keys - {w};
  }

  /** Whom a signal may wake. */
  ghost function SomeSleeper(asleep: set<nat>): (wake: Option<nat>)
    ensures Wakes(asleep, wake)
  {
    if asleep == {} then None else var t :| t in asleep; Some(t)
  }

  /** And until the join some such step is possible: the pills never block forever,
      even when the queue is full. */
  lemma NeverStuck(s: Pool) returns (a: Action)
    requires PoolInv(s) && ShuttingDown(s)
    ensures Enabled(s, a) && !Spurious(a)
  {
    if w :| w in s.running {
      return FinishJob(w);
    }
    if s.idle + s.f.wokenC != {} {
      var w :| w in s.idle + s.f.wokenC;
      return Take(w, if s.f.q != [] && s.f.max > 0 && |s.f.q| - 1 < s.f.max then SomeSleeper(s.f.asleepP) else None);
    }
    if Pills(s) < s.n && DTOR !in s.f.asleepP {
      return PutPill(if HasRoom(s.f) then SomeSleeper(s.f.asleepC) else None);
    }
    assert s.running.Keys == {};
    OnlyTheJoinIsLeft(s);
    return Join;
  }

  /** With every worker asleep or gone and no pill to put, all of them are gone. */
  lemma OnlyTheJoinIsLeft(s: Pool)
    requires PoolInv(s) && ShuttingDown(s)
    requires s.running.Keys == {} && s.idle == {} && s.f.wokenC == {}
    requires Pills(s) == s.n || DTOR in s.f.asleepP
    ensures Enabled(s, Join)
  {
    assert |s.f.enqueued| == |s.f.dequeued| + |s.f.q|;
    assert s.f.wokenP <= {DTOR};
    assert DTOR in s.f.asleepP ==> s.f.wokenP == {} && |s.f.q| >= s.f.max > 0;
    assert |s.f.asleepC| + |s.exited| == s.n;
    assert s.f.asleepC != {} ==> s.f.q == [];
  }

  /** A stretch of a shutdown in which no wake-up is spurious. */
  ghost predicate Quick(s: Pool, acts: seq<Action>)
    decreases |acts|
  {
    acts == [] ||
    (ShuttingDown(s) && Enabled(s, acts[0]) && !Spurious(acts[0]) && Quick(Do(s, acts[0]), acts[1..]))
  }

  /** Such a stretch takes at most Work steps; as it can only end in the join, a
      shutdown with finitely many jobs completes. */
  lemma {:induction false} ShutdownTerminates(s: Pool, acts: seq<Action>)
    requires PoolInv(s) && Quick(s, acts)
    ensures |acts| <= Work(s)
    decreases |acts|
  {
    if acts == [] {
      WorkNotNegative(s);
    } else {
      StepKeeps(s, acts[0]);
      WorkDecreases(s, acts[0]);
      ShutdownTerminates(Do(s, acts[0]), acts[1..]);
    }
  }

  /** `addJob` in any run: with room for it the job is accepted, in the order of the
      calls; a full queue makes a blocking pool wait with it and any other refuse it. */
  lemma AddExactly(sz: nat, blocking: bool, acts: seq<Action>, t: nat, id: nat, wake: Option<nat>)
    requires sz > 0 && Legal(sz, blocking, acts) && Enabled(After(sz, blocking, acts), Add(t, id, wake))
    ensures var s, s' := After(sz, blocking, acts), Do(After(sz, blocking, acts), Add(t, id, wake));
            if |s.f.q| < 100 * sz then
              s'.jobs == s.jobs + 1 && s'.f.enqueued == s.f.enqueued + [Job(id)] && s'.f.q == s.f.q + [Job(id)]
            else
              && s'.jobs == s.jobs && s'.f.enqueued == s.f.enqueued && s'.f.q == s.f.q
              && s'.f.asleepP == s.f.asleepP + (if blocking then {t} else {})
  {
    Safe(sz, blocking, acts);
    Settings(sz, blocking, acts);
  }

  lemma {:induction false} Settings(sz: nat, blocking: bool, acts: seq<Action>)
    requires sz > 0 && Legal(sz, blocking, acts)
    ensures After(sz, blocking, acts).n == sz && After(sz, blocking, acts).blocking == blocking
  {
    if acts != [] {
      Settings(sz, blocking, acts[..|acts| - 1]);
      StepKeepsSettings(After(sz, blocking, acts[..|acts| - 1]), acts[|acts| - 1]);
    }
  }

  lemma StepKeepsSettings(s: Pool, a: Action)
    requires Enabled(s, a)
    ensures Do(s, a).n == s.n && Do(s, a).blocking == s.blocking
  {}
}
