/** A run of the whole protocol in which a stale duplicate is executed again: every
    header in it is one that a client packed. */
module RpcReplay {
  import opened RpcTypes
  import opened XidWindow
  import opened ReplySpec
  import opened RpcProtocol
  import opened RpcSafety
  import C = ClientSpec

  lemma Extend(acts: seq<Action>, a: Action) returns (acts': seq<Action>)
    requires Legal(acts) && Enabled(After(acts), a)
    ensures Legal(acts') && After(acts') == Do(After(acts), a)
  {
    acts' := acts + [a];
    assert acts'[..|acts|] == acts;
  }

  ghost function Upto(n: nat): set<nat> {
    if n == 0 then {} else Upto(n - 1) + {n}
  }

  lemma {:induction false} FrontUpto(n: nat)
    ensures Front(Upto(n)) == n && forall x :: x in Upto(n) <==> 1 <= x <= n
  {
    if n > 0 {
      FrontUpto(n - 1);
    }
    FrontIsUnique(Upto(n), n);
  }

  /** The request of the n-th bind that client 7 sends. */
  ghost function Bind(n: nat): Request {
    Request(7, n, BIND, [], 0, if n == 0 then 0 else n - 1)
  }

  ghost function Packed(n: nat): map<(nat, nat), Request> {
    if n == 0 then map[] else Packed(n - 1)[(7, n) := Bind(n)]
  }

  ghost function Sent(n: nat): set<Request> {
    if n == 0 then {} else Sent(n - 1) + {Bind(n)}
  }

  /** Server 5 is up and client 7 has given up n binds; all are still on their way. */
  ghost function Delayed(n: nat): State {
    State(5, {5}, map[], [], map[], {}, map[7 := C.Client(7, false, 0, n + 1, map[], Upto(n))],
          Packed(n), map[], Sent(n), {})
  }

  lemma {:induction false} TimedOutBinds(n: nat) returns (acts: seq<Action>)
    ensures Legal(acts) && After(acts) == Delayed(n)
  {
    if n == 0 {
      acts := Extend([], Boot(5));
      acts := Extend(acts, Connect(7));
    } else {
      acts := TimedOutBinds(n - 1);
      OneMoreCall(n);
      acts := Extend(acts, Call(7, BIND, []));
      acts := Extend(acts, Transmit(7, n));
      acts := Extend(acts, Return(7, n));
      OneMoreReturn(n);
    }
  }

  ghost function Called(n: nat): State
    requires n > 0
  {
    Delayed(n - 1).(packed := Packed(n),
                    clients := map[7 := C.Client(7, false, 0, n + 1, map[n := C.Waiting], Upto(n - 1))])
  }

  lemma OneMoreCall(n: nat)
    requires n > 0
    ensures Enabled(Delayed(n - 1), Call(7, BIND, [])) && Do(Delayed(n - 1), Call(7, BIND, [])) == Called(n)
    ensures Enabled(Called(n), Transmit(7, n))
  {
    FrontUpto(n - 1);
    assert Delayed(n - 1).clients[7 := Called(n).clients[7]] == Called(n).clients;
  }

  lemma OneMoreReturn(n: nat)
    requires n > 0
    ensures var s := Called(n).(reqs := Sent(n)); Enabled(s, Return(7, n)) && Do(s, Return(7, n)) == Delayed(n)
  {
    BindTimesOut(Called(n).(reqs := Sent(n)), n, Upto(n - 1));
  }

  lemma BindTimesOut(s: State, n: nat, done: set<nat>)
    requires s.clients == map[7 := C.Client(7, false, 0, n + 1, map[n := C.Waiting], done)] && (7, n) in s.packed
    ensures Enabled(s, Return(7, n))
    ensures Do(s, Return(7, n)) == s.(clients := map[7 := C.Client(7, false, 0, n + 1, map[], done + {n})])
  {
    assert s.clients[7].calls - {n} == map[];
    var cl := C.Client(7, false, 0, n + 1, map[], done + {n});
    assert s.clients[7 := cl] == map[7 := cl];
  }

  lemma DeliverNew(acts: seq<Action>, q: Request) returns (acts': seq<Action>)
    requires Legal(acts) && Enabled(After(acts), Deliver(q)) && q.srv == 0
    requires Judge(For(After(acts).window, q.clt), q.xid, q.rep) == New
    ensures Legal(acts')
    ensures var s, s' := After(acts), After(acts');
            && s'.inst == s.inst && s'.reqs == s.reqs && s'.clients == s.clients && s'.packed == s.packed
            && s'.runs == s.runs + [Run(s.inst, q, Accepted)]
            && For(s'.window, q.clt) == Admit(For(s.window, q.clt), q.xid, q.rep)
  {
    acts' := Extend(acts, Deliver(q));
  }

  /** Delivered in the order 1, 3, 1, the first request is executed twice: the third
      acknowledges it, which removes its entry. */
  lemma StaleRequestRunsTwice() returns (acts: seq<Action>)
    ensures Legal(acts)
    ensures var runs := After(acts).runs;
            && |runs| == 3 && runs[0].inst == runs[2].inst
            && Executes(runs[0], 7, 1) && Executes(runs[2], 7, 1)
  {
    acts := TimedOutBinds(3);
    assert Bind(1) in Sent(1) && Bind(1) in Sent(2) && Bind(1) in Sent(3) && Bind(3) in Sent(3);
    acts := DeliverNew(acts, Bind(1));
    assert For(After(acts).window, 7) == map[1 := InProgress];
    acts := DeliverNew(acts, Bind(3));
    assert For(After(acts).window, 7) == map[3 := InProgress];
    acts := DeliverNew(acts, Bind(1));
  }

  // ---------- A second execution before the caller has returned ----------

  ghost const Ok5 := Result(0, 5)

  /** Server 5 and client 7, whose first bind has come as far as the arguments say. */
  ghost predicate FirstBind(s: State, phase: Phase, slot: Slot<Result>, caller: C.Caller) {
    && s.inst == 5 && s.runs == [Run(5, Bind(1), phase)] && s.window == map[7 := map[1 := slot]]
    && s.reqs == {Bind(1)} && (7, 1) in s.packed && 7 in s.clients
    && s.clients[7] == C.Client(7, false, 0, 2, map[1 := caller], if caller.Waiting? then {} else {1})
  }

  lemma BindAccepted() returns (acts: seq<Action>)
    ensures Legal(acts) && FirstBind(After(acts), Accepted, InProgress, C.Waiting)
  {
    acts := TimedOutBinds(0);
    OneMoreCall(1);
    acts := Extend(acts, Call(7, BIND, []));
    acts := Extend(acts, Transmit(7, 1));
    assert After(acts).packed == map[(7, 1) := Bind(1)] && After(acts).reqs == {Bind(1)};
    acts := Extend(acts, Deliver(Bind(1)));
    assert After(acts).window == map[7 := map[1 := InProgress]];
  }

  lemma BindExecuted() returns (acts: seq<Action>)
    ensures Legal(acts) && FirstBind(After(acts), Returned(Ok5), InProgress, C.Waiting)
  {
    acts := BindAccepted();
    acts := Extend(acts, StartHandler(0));
    acts := Extend(acts, FinishHandler(0, Ok5));
  }

  lemma BindSaved() returns (acts: seq<Action>)
    ensures Legal(acts) && FirstBind(After(acts), Saved(Ok5), Stored(Ok5), C.Waiting)
  {
    acts := BindExecuted();
    SaveFirst(After(acts));
    acts := Extend(acts, Save(0));
  }

  lemma SaveFirst(s: State)
    requires FirstBind(s, Returned(Ok5), InProgress, C.Waiting)
    ensures Enabled(s, Save(0)) && FirstBind(Do(s, Save(0)), Saved(Ok5), Stored(Ok5), C.Waiting)
  {
    var m: Entries<Result> := map[1 := InProgress];
    assert For(s.window, 7) == m;
    assert Record(m, 1, Ok5) == map[1 := Stored(Ok5)];
    assert s.window[7 := Record(m, 1, Ok5)] == map[7 := map[1 := Stored(Ok5)]];
  }

  lemma BindAnswered() returns (acts: seq<Action>)
    ensures Legal(acts) && FirstBind(After(acts), Saved(Ok5), Stored(Ok5), C.Answered(Ok5))
  {
    acts := BindSaved();
    acts := Extend(acts, Send(0));
    acts := Extend(acts, GotReply(Reply(7, 1, Ok5)));
    assert {} + {1} == {1};
  }

  /** A second caller gives up, and a third call acknowledges both. */
  lemma ThirdCallSent() returns (acts: seq<Action>)
    ensures Legal(acts)
    ensures var s := After(acts);
            && s.inst == 5 && s.window == map[7 := map[1 := Stored(Ok5)]]
            && s.runs == [Run(5, Bind(1), Saved(Ok5))] && s.reqs == {Bind(1), Bind(3)}
            && 7 in s.clients && 1 in s.clients[7].calls && s.clients[7].calls[1] == C.Answered(Ok5)
            && (7, 1) in s.packed
  {
    acts := BindAnswered();
    FrontIsUnique({1}, 1);
    acts := Extend(acts, Call(7, BIND, []));
    acts := Extend(acts, Return(7, 2));
    assert After(acts).clients[7].completed == {1, 2};
    FrontIsUnique({1, 2}, 2);
    acts := Extend(acts, Call(7, BIND, []));
    acts := Extend(acts, Transmit(7, 3));
  }

  /** So "executed once" cannot be promised for the moment of the return: the caller is
      told 0, and by then its request has run twice. */
  lemma SecondRunBeforeReturn() returns (acts: seq<Action>)
    ensures Legal(acts) && Enabled(After(acts), Return(7, 1))
    ensures var s := After(acts);
            && C.Outcome(s.clients[7].calls[1]) == Ok5
            && |s.runs| == 3 && s.runs[0].inst == s.runs[2].inst
            && Executes(s.runs[0], 7, 1) && Executes(s.runs[2], 7, 1)
  {
    acts := ThirdCallSent();
    acts := DeliverNew(acts, Bind(3));
    assert For(After(acts).window, 7) == map[3 := InProgress];
    acts := DeliverNew(acts, Bind(1));
  }
}

/** A run of clients and lock server in which a stale release breaks mutual exclusion. */
module LockReplay {
  import opened RpcTypes
  import opened XidWindow
  import opened ReplySpec
  import opened LockSpec
  import opened LockSystem
  import P = RpcProtocol
  import C = ClientSpec
  import S = LockSafety

  /** Some run leads to s. */
  ghost predicate Reachable(s: State) {
    exists acts :: Legal(acts) && After(acts) == s
  }

  lemma Step(s: State, a: Action) returns (s': State)
    requires Reachable(s) && Enabled(s, a)
    ensures Reachable(s') && s' == Do(s, a)
  {
    s' := Do(s, a);
    var acts :| Legal(acts) && After(acts) == s;
    var acts' := acts + [a];
    assert acts'[..|acts|] == acts;
    assert Legal(acts') && After(acts') == s';
  }

  lemma Begin() returns (s: State)
    ensures Reachable(s) && s == Init
  {
    s := Init;
    assert Legal([]) && After([]) == Init;
  }

  /** Server 5 runs; client 7 is bound to it, calls next with xid x and has completed
      the xids up to m. */
  ghost predicate Ready(s: State, x: nat, m: nat) {
    && s.rpc.inst == 5 && 7 in s.rpc.clients && m < x && NoAbort(s)
    && var cl := s.rpc.clients[7];
       && cl == C.Client(7, true, 5, x, cl.calls, cl.completed) && Completed(cl.completed, m)
       && (forall y :: y in cl.calls ==> y < x) && (forall y :: y in For(s.rpc.window, 7) ==> y < x)
  }

  ghost predicate Completed(c: set<nat>, m: nat) {
    forall y :: y in c <==> 1 <= y <= m
  }

  lemma CompletedFront(c: set<nat>, m: nat)
    requires Completed(c, m)
    ensures Front(c) == m
  {
    FrontIsUnique(c, m);
  }

  ghost predicate NoAbort(s: State) {
    forall t :: t in s.threads ==> s.threads[t].activity != Aborted
  }

  ghost predicate Waits(s: State, t: nat, held: set<nat>) {
    t in s.threads && s.threads[t] == Thread(7, held, Idle)
  }

  ghost function Acquire(x: nat, m: nat, lid: nat): Request {
    Request(7, x, ACQUIRE, LockArgs(7, lid), 5, m)
  }

  /** The request is called and transmitted. */
  ghost predicate Sent(s: State, s': State, x: nat, q: Request) {
    && s.rpc.clients.Keys == s'.rpc.clients.Keys
    && 7 in s.rpc.clients
    && s'.rpc == s.rpc.(packed := s.rpc.packed[(7, x) := q], reqs := s.rpc.reqs + {q}, clients := s'.rpc.clients)
    && s'.rpc.clients[7] == C.StartCall(s.rpc.clients[7])
    && s'.locks == s.locks
  }

  lemma SendAcquire(s: State, x: nat, m: nat, t: nat, lid: nat) returns (s': State)
    requires Reachable(s) && Ready(s, x, m) && Waits(s, t, {})
    ensures Reachable(s') && Sent(s, s', x, Acquire(x, m, lid))
    ensures s'.threads == s.threads[t := Thread(7, {}, Acquiring(x, lid))]
    ensures s'.owner == s.owner
  {
    CompletedFront(s.rpc.clients[7].completed, m);
    s' := Step(s, CallAcquire(t, lid));
    s' := SendAgain(s', x);
  }

  /** The server accepts q as new. */
  ghost predicate Arrived(s: State, s': State, q: Request) {
    && s' == s.(rpc := s'.rpc)
    && s'.rpc == s.rpc.(window := s'.rpc.window, acked := s'.rpc.acked, late := s'.rpc.late,
                        runs := s.rpc.runs + [P.Run(5, q, P.Accepted)])
    && For(s'.rpc.window, 7) == Admit(For(s.rpc.window, 7), q.xid, q.rep)
  }

  lemma Arrive(s: State, q: Request) returns (s': State)
    requires Reachable(s) && s.rpc.inst == 5 && q in s.rpc.reqs
    requires q.clt == 7 && (q.srv == 0 || q.srv == 5)
    requires Judge(For(s.rpc.window, 7), q.xid, q.rep) == New
    ensures Reachable(s') && Arrived(s, s', q)
  {
    s' := Step(s, Rpc(P.Deliver(q)));
  }

  /** Run i of the request q has come to the given phase. */
  ghost predicate IsAt(s: State, i: nat, q: Request, phase: P.Phase) {
    s.rpc.inst == 5 && i < |s.rpc.runs| && s.rpc.runs[i] == P.Run(5, q, phase)
  }

  ghost predicate Moved(s: State, s': State, i: nat, phase: P.Phase) {
    i < |s.rpc.runs| && s'.rpc == P.Advance(s.rpc, i, phase) && s'.threads == s.threads
  }

  lemma Start(s: State, i: nat, q: Request) returns (s': State)
    requires Reachable(s) && IsAt(s, i, q, P.Accepted)
    ensures Reachable(s') && IsAt(s', i, q, P.Running)
    ensures Moved(s, s', i, P.Running)
    ensures s' == s.(rpc := s'.rpc)
  {
    s' := Step(s, Rpc(P.StartHandler(i)));
  }

  ghost const Fine := P.Returned(Result(OK, 0))

  lemma ServeAcquired(s: State, i: nat, q: Request, lid: nat) returns (s': State)
    requires Reachable(s) && IsAt(s, i, q, P.Accepted)
    requires q.clt == 7 && q.proc == ACQUIRE && q.args == LockArgs(7, lid) && IsFree(s.locks, lid)
    ensures Reachable(s') && Moved(s, s', i, Fine)
    ensures s'.locks == s.locks[lid := Handle(LOCKED, 7)]
  {
    s' := Start(s, i, q);
    s' := Step(s', ServeAcquire(i, 0));
  }

  lemma ServeReleased(s: State, i: nat, q: Request, lid: nat) returns (s': State)
    requires Reachable(s) && IsAt(s, i, q, P.Accepted)
    requires q.clt == 7 && q.proc == RELEASE && q.args == LockArgs(7, lid) && Releases(s.locks, 7, lid)
    ensures Reachable(s') && Moved(s, s', i, Fine)
    ensures s'.locks == s.locks[lid := Handle(FREE, NOBODY)]
  {
    s' := Start(s, i, q);
    s' := Step(s', ServeRelease(i, 0));
  }

  /** The reply of run i has reached the waiting caller. */
  ghost predicate Replied(s: State, s': State, x: nat, res: Result) {
    && 7 in s.rpc.clients && 7 in s'.rpc.clients
    && s' == s.(rpc := s'.rpc)
    && s'.rpc == s.rpc.(runs := s'.rpc.runs, window := s'.rpc.window, reps := s'.rpc.reps, clients := s'.rpc.clients)
    && s'.rpc.clients[7] == C.Receive(s.rpc.clients[7], x, res)
    && For(s'.rpc.window, 7).Keys == For(s.rpc.window, 7).Keys
  }

  /** The reply of run i is saved, and sent. */
  lemma SaveAndSend(s: State, i: nat, q: Request, res: Result) returns (s': State)
    requires Reachable(s) && IsAt(s, i, q, P.Returned(res)) && q.clt == 7
    ensures Reachable(s') && RpcTypes.Reply(7, q.xid, res) in s'.rpc.reps
    ensures s' == s.(rpc := s'.rpc)
            && s'.rpc == s.rpc.(runs := s'.rpc.runs, window := s'.rpc.window, reps := s'.rpc.reps)
            && For(s'.rpc.window, 7).Keys == For(s.rpc.window, 7).Keys
  {
    s' := Step(s, Rpc(P.Save(i)));
    s' := Step(s', Rpc(P.Send(i)));
  }

  lemma Reply(s: State, i: nat, q: Request, res: Result) returns (s': State)
    requires Reachable(s) && NoAbort(s) && IsAt(s, i, q, P.Returned(res)) && q.clt == 7 && 7 in s.rpc.clients
    ensures Reachable(s') && Replied(s, s', q.xid, res)
  {
    s' := SaveAndSend(s, i, q, res);
    s' := Step(s', Rpc(P.GotReply(RpcTypes.Reply(7, q.xid, res))));
  }

  lemma LeaveOk(s: State, t: nat, x: nat, lid: nat) returns (s': State)
    requires Reachable(s) && NoAbort(s) && 7 in s.rpc.clients && t in s.threads
    requires s.threads[t] == Thread(7, {}, Acquiring(x, lid))
    requires (7, x) in s.rpc.packed && s.rpc.packed[(7, x)].proc == ACQUIRE
    requires x in s.rpc.clients[7].calls
    requires s.rpc.clients[7].calls[x] == C.Answered(Result(OK, 0))
    ensures Reachable(s')
    ensures s'.threads == s.threads[t := Thread(7, {lid}, Idle)] && s'.locks == s.locks
            && s'.rpc == P.WithClient(s.rpc, 7, C.Finish(s.rpc.clients[7], x))
  {
    assert {} + {lid} == {lid};
    s' := Step(s, Leave(t));
  }

  /** What a whole acquire by thread t has changed. */
  ghost predicate Acquired(s: State, s': State, x: nat, m: nat, t: nat, lid: nat) {
    && 7 in s.rpc.clients && 7 in s'.rpc.clients && s'.rpc.inst == s.rpc.inst
    && s'.threads == s.threads[t := Thread(7, {lid}, Idle)]
    && s'.locks == s.locks[lid := Handle(LOCKED, 7)]
    && s.rpc.reqs <= s'.rpc.reqs
    && For(s'.rpc.window, 7).Keys == Prune(For(s.rpc.window, 7), m).Keys + {x}
    && s'.rpc.clients[7] == C.Finish(C.Receive(C.StartCall(s.rpc.clients[7]), x, Result(OK, 0)), x)
  }

  /** The request of thread t is on record and the server has accepted it. */
  ghost predicate Pending(s: State, s': State, x: nat, m: nat, t: nat, lid: nat) {
    && 7 in s.rpc.clients && 7 in s'.rpc.clients && s'.rpc.inst == s.rpc.inst && s'.locks == s.locks
    && s'.threads == s.threads[t := Thread(7, {}, Acquiring(x, lid))]
    && (7, x) in s'.rpc.packed && s'.rpc.packed[(7, x)].proc == ACQUIRE
    && s.rpc.reqs <= s'.rpc.reqs
    && s'.rpc.runs == s.rpc.runs + [P.Run(5, Acquire(x, m, lid), P.Accepted)]
    && For(s'.rpc.window, 7).Keys == Prune(For(s.rpc.window, 7), m).Keys + {x}
    && s'.rpc.clients[7] == C.StartCall(s.rpc.clients[7])
  }

  lemma CallAndArrive(s: State, x: nat, m: nat, t: nat, lid: nat) returns (s': State)
    requires Reachable(s) && Ready(s, x, m) && Waits(s, t, {})
    ensures Reachable(s') && Pending(s, s', x, m, t, lid)
  {
    s' := SendAcquire(s, x, m, t, lid);
    s' := Arrive(s', Acquire(x, m, lid));
  }

  /** The accepted acquire has been granted and thread t has returned from it. */
  ghost predicate Granted(s: State, s': State, x: nat, t: nat, lid: nat) {
    && 7 in s.rpc.clients && 7 in s'.rpc.clients
    && s'.rpc.inst == s.rpc.inst && s'.rpc.reqs == s.rpc.reqs
    && s'.threads == s.threads[t := Thread(7, {lid}, Idle)]
    && s'.locks == s.locks[lid := Handle(LOCKED, 7)]
    && For(s'.rpc.window, 7).Keys == For(s.rpc.window, 7).Keys
    && s'.rpc.clients[7] == C.Finish(C.Receive(s.rpc.clients[7], x, Result(OK, 0)), x)
  }

  lemma GrantAndLeave(s: State, i: nat, q: Request, t: nat, lid: nat) returns (s': State)
    requires Reachable(s) && NoAbort(s) && IsAt(s, i, q, P.Accepted) && IsFree(s.locks, lid)
    requires q.clt == 7 && q.proc == ACQUIRE && q.args == LockArgs(7, lid)
    requires t in s.threads && s.threads[t] == Thread(7, {}, Acquiring(q.xid, lid))
    requires 7 in s.rpc.clients && q.xid in s.rpc.clients[7].calls
    requires s.rpc.clients[7].calls[q.xid] == C.Waiting
    requires (7, q.xid) in s.rpc.packed && s.rpc.packed[(7, q.xid)].proc == ACQUIRE
    ensures Reachable(s') && Granted(s, s', q.xid, t, lid)
  {
    s' := ServeAcquired(s, i, q, lid);
    s' := Reply(s', i, q, Result(OK, 0));
    s' := LeaveOk(s', t, q.xid, lid);
  }

  lemma FullAcquire(s: State, x: nat, m: nat, t: nat, lid: nat) returns (s': State)
    requires Reachable(s) && Ready(s, x, m) && Waits(s, t, {}) && IsFree(s.locks, lid)
    ensures Reachable(s') && Acquired(s, s', x, m, t, lid)
  {
    s' := CallAndArrive(s, x, m, t, lid);
    s' := GrantAndLeave(s', |s.rpc.runs|, Acquire(x, m, lid), t, lid);
  }

  ghost function Release(x: nat, m: nat, lid: nat): Request {
    Request(7, x, RELEASE, LockArgs(7, lid), 5, m)
  }

  lemma SendRelease(s: State, x: nat, m: nat, t: nat, lid: nat) returns (s': State)
    requires Reachable(s) && Ready(s, x, m) && Waits(s, t, {lid})
    ensures Reachable(s') && Sent(s, s', x, Release(x, m, lid))
    ensures s'.threads == s.threads[t := Thread(7, {}, Releasing(x, lid))]
  {
    CompletedFront(s.rpc.clients[7].completed, m);
    assert {lid} - {lid} == {};
    s' := Step(s, CallRelease(t, lid));
    s' := SendAgain(s', x);
  }

  lemma SendAgain(s: State, x: nat) returns (s': State)
    requires Reachable(s) && NoAbort(s)
    requires 7 in s.rpc.clients && x in s.rpc.clients[7].calls && (7, x) in s.rpc.packed
    ensures Reachable(s') && s' == s.(rpc := s.rpc.(reqs := s.rpc.reqs + {s.rpc.packed[(7, x)]}))
  {
    s' := Step(s, Rpc(P.Transmit(7, x)));
  }

  /** The release was executed and has returned OK; a copy of it is still on its way. */
  ghost predicate Released(s: State, s': State, x: nat, m: nat, t: nat, lid: nat) {
    && 7 in s.rpc.clients && 7 in s'.rpc.clients && s'.rpc.inst == s.rpc.inst
    && s'.threads == s.threads[t := Thread(7, {}, Idle)]
    && s'.locks == s.locks[lid := Handle(FREE, NOBODY)]
    && s.rpc.reqs + {Release(x, m, lid)} <= s'.rpc.reqs
    && For(s'.rpc.window, 7).Keys == Prune(For(s.rpc.window, 7), m).Keys + {x}
    && s'.rpc.clients[7] == C.Finish(C.Receive(C.StartCall(s.rpc.clients[7]), x, Result(OK, 0)), x)
  }

  lemma LeaveReleased(s: State, t: nat, x: nat, lid: nat) returns (s': State)
    requires Reachable(s) && NoAbort(s) && 7 in s.rpc.clients && t in s.threads
    requires s.threads[t] == Thread(7, {}, Releasing(x, lid))
    requires (7, x) in s.rpc.packed && s.rpc.packed[(7, x)].proc == RELEASE
    requires x in s.rpc.clients[7].calls && s.rpc.clients[7].calls[x] == C.Answered(Result(OK, 0))
    ensures Reachable(s')
    ensures s'.threads == s.threads[t := Thread(7, {}, Idle)] && s'.locks == s.locks
            && s'.rpc == P.WithClient(s.rpc, 7, C.Finish(s.rpc.clients[7], x))
  {
    s' := Step(s, Leave(t));
  }

  /** The accepted release has been executed and thread t has returned from it. */
  ghost predicate ReleaseReturned(s: State, s': State, x: nat, t: nat, lid: nat) {
    && 7 in s.rpc.clients && 7 in s'.rpc.clients
    && s'.rpc.inst == s.rpc.inst && s'.rpc.reqs == s.rpc.reqs
    && s'.threads == s.threads[t := Thread(7, {}, Idle)]
    && s'.locks == s.locks[lid := Handle(FREE, NOBODY)]
    && For(s'.rpc.window, 7).Keys == For(s.rpc.window, 7).Keys
    && s'.rpc.clients[7] == C.Finish(C.Receive(s.rpc.clients[7], x, Result(OK, 0)), x)
  }

  lemma ServeAndLeave(s: State, i: nat, q: Request, t: nat, lid: nat) returns (s': State)
    requires Reachable(s) && NoAbort(s) && IsAt(s, i, q, P.Accepted) && Releases(s.locks, 7, lid)
    requires q.clt == 7 && q.proc == RELEASE && q.args == LockArgs(7, lid)
    requires t in s.threads && s.threads[t] == Thread(7, {}, Releasing(q.xid, lid))
    requires 7 in s.rpc.clients && q.xid in s.rpc.clients[7].calls
    requires s.rpc.clients[7].calls[q.xid] == C.Waiting
    requires (7, q.xid) in s.rpc.packed && s.rpc.packed[(7, q.xid)].proc == RELEASE
    ensures Reachable(s') && ReleaseReturned(s, s', q.xid, t, lid)
  {
    s' := ServeReleased(s, i, q, lid);
    s' := Reply(s', i, q, Result(OK, 0));
    s' := LeaveReleased(s', t, q.xid, lid);
  }

  /** The release of thread t is on record and the server has accepted it. */
  ghost predicate PendingRelease(s: State, s': State, x: nat, m: nat, t: nat, lid: nat) {
    && 7 in s.rpc.clients && 7 in s'.rpc.clients && s'.rpc.inst == s.rpc.inst && s'.locks == s.locks
    && s'.threads == s.threads[t := Thread(7, {}, Releasing(x, lid))]
    && (7, x) in s'.rpc.packed && s'.rpc.packed[(7, x)].proc == RELEASE
    && s.rpc.reqs + {Release(x, m, lid)} <= s'.rpc.reqs
    && s'.rpc.runs == s.rpc.runs + [P.Run(5, Release(x, m, lid), P.Accepted)]
    && For(s'.rpc.window, 7).Keys == Prune(For(s.rpc.window, 7), m).Keys + {x}
    && s'.rpc.clients[7] == C.StartCall(s.rpc.clients[7])
  }

  lemma ReleaseAndArrive(s: State, x: nat, m: nat, t: nat, lid: nat) returns (s': State)
    requires Reachable(s) && Ready(s, x, m) && Waits(s, t, {lid})
    ensures Reachable(s') && PendingRelease(s, s', x, m, t, lid)
  {
    s' := SendRelease(s, x, m, t, lid);
    s' := Arrive(s', Release(x, m, lid));
  }

  lemma FullRelease(s: State, x: nat, m: nat, t: nat, lid: nat) returns (s': State)
    requires Reachable(s) && Ready(s, x, m) && Waits(s, t, {lid})
    requires Releases(s.locks, 7, lid)
    ensures Reachable(s') && Released(s, s', x, m, t, lid)
  {
    s' := ReleaseAndArrive(s, x, m, t, lid);
    s' := ServeAndLeave(s', |s.rpc.runs|, Release(x, m, lid), t, lid);
  }

  ghost const BindCall := Request(7, 1, BIND, [], 0, 0)

  ghost function Begun(packed: map<(nat, nat), Request>, reqs: set<Request>, cl: C.Client): State {
    State(P.State(5, {5}, map[], [], map[], {}, map[7 := cl], packed, map[], reqs, {}), map[], map[], map[])
  }

  lemma Connected() returns (s: State)
    ensures Reachable(s) && s == Begun(map[], {}, C.Fresh(7))
  {
    s := Begin();
    s := Step(s, Rpc(P.Boot(5)));
    s := Step(s, Rpc(P.Connect(7)));
  }

  lemma BindSent() returns (s: State)
    ensures Reachable(s)
    ensures s == Begun(map[(7, 1) := BindCall], {BindCall}, C.Client(7, false, 0, 2, map[1 := C.Waiting], {}))
  {
    CompletedFront({}, 0);
    s := Connected();
    s := Step(s, Rpc(P.Call(7, BIND, [])));
    s := Step(s, Rpc(P.Transmit(7, 1)));
  }

  /** The reply to bind is there. */
  ghost predicate BindAnswered(s: State) {
    && s.threads == map[] && s.locks == map[] && s.rpc.inst == 5
    && 7 in s.rpc.clients && (7, 1) in s.rpc.packed && s.rpc.packed[(7, 1)].proc == BIND
    && s.rpc.clients[7] == C.Client(7, false, 0, 2, map[1 := C.Answered(Result(0, 5))], {1})
    && For(s.rpc.window, 7).Keys == {1}
  }

  lemma BindExecuted() returns (s: State)
    ensures Reachable(s)
    ensures IsAt(s, 0, BindCall, P.Returned(Result(0, 5))) && s.threads == map[] && s.locks == map[]
            && s.rpc.packed == map[(7, 1) := BindCall] && For(s.rpc.window, 7).Keys == {1}
            && s.rpc.clients == map[7 := C.Client(7, false, 0, 2, map[1 := C.Waiting], {})]
  {
    s := BindSent();
    s := Arrive(s, BindCall);
    s := Start(s, 0, BindCall);
    s := Step(s, Rpc(P.FinishHandler(0, Result(0, 5))));
  }

  lemma BindServed() returns (s: State)
    ensures Reachable(s) && BindAnswered(s)
  {
    s := BindExecuted();
    s := Reply(s, 0, BindCall, Result(0, 5));
  }

  /** Client 7 is bound to server 5. */
  lemma Bound() returns (s: State)
    ensures Reachable(s) && Ready(s, 2, 1)
    ensures s.threads == map[] && s.locks == map[]
  {
    s := BindReturned();
    s := Step(s, Rpc(P.StoreBind(7, 1)));
  }

  lemma BindReturned() returns (s: State)
    ensures Reachable(s) && s.threads == map[] && s.locks == map[] && s.rpc.inst == 5
    ensures 7 in s.rpc.clients && s.rpc.clients[7] == C.Client(7, false, 0, 2, map[], {1})
    ensures (7, 1) in s.rpc.binds && s.rpc.binds[(7, 1)] == 5 && For(s.rpc.window, 7).Keys == {1}
  {
    s := BindServed();
    assert {1} + {1} == {1};
    s := Step(s, Rpc(P.Return(7, 1)));
  }

  /** Four threads of the client. */
  lemma Threads() returns (s: State)
    ensures Reachable(s) && Ready(s, 2, 1) && s.locks == map[]
    ensures Waits(s, 1, {}) && Waits(s, 2, {}) && Waits(s, 3, {}) && Waits(s, 4, {})
  {
    s := Bound();
    s := SpawnThread(s, 1);
    s := SpawnThread(s, 2);
    s := SpawnThread(s, 3);
    s := SpawnThread(s, 4);
  }

  lemma SpawnThread(s: State, t: nat) returns (s': State)
    requires Reachable(s) && Ready(s, 2, 1) && t !in s.threads
    ensures Reachable(s') && Ready(s', 2, 1) && s'.locks == s.locks
    ensures s'.threads == s.threads[t := Thread(7, {}, Idle)]
  {
    s' := Step(s, Spawn(t, 7));
  }

  /** The client is ready for its next call when it has completed this one. */
  lemma ReadyAgain(s: State, s': State, x: nat)
    requires x > 0 && Ready(s, x, x - 1) && s'.rpc.inst == 5 && 7 in s'.rpc.clients && NoAbort(s')
    requires var cl, cl' := s.rpc.clients[7], s'.rpc.clients[7];
             cl' == cl.(next := x + 1, calls := cl'.calls, completed := cl.completed + {x})
             && cl'.calls.Keys <= cl.calls.Keys + {x}
    requires For(s'.rpc.window, 7).Keys <= For(s.rpc.window, 7).Keys + {x}
    ensures Ready(s', x + 1, x)
  {
    assert forall y :: y in For(s'.rpc.window, 7) ==> y in For(s'.rpc.window, 7).Keys;
    assert forall y :: y in s'.rpc.clients[7].calls ==> y in s'.rpc.clients[7].calls.Keys;
  }

  lemma NextAcquire(s: State, x: nat, t: nat, lid: nat) returns (s': State)
    requires Reachable(s) && x > 0 && Ready(s, x, x - 1)
    requires Waits(s, t, {}) && IsFree(s.locks, lid)
    ensures Reachable(s') && Ready(s', x + 1, x)
    ensures s'.threads == s.threads[t := Thread(7, {lid}, Idle)]
    ensures s'.locks == s.locks[lid := Handle(LOCKED, 7)]
    ensures s.rpc.reqs <= s'.rpc.reqs
  {
    s' := FullAcquire(s, x, x - 1, t, lid);
    ReadyAgain(s, s', x);
  }

  lemma NextRelease(s: State, x: nat, t: nat, lid: nat) returns (s': State)
    requires Reachable(s) && x > 0 && Ready(s, x, x - 1)
    requires Waits(s, t, {lid}) && Releases(s.locks, 7, lid)
    ensures Reachable(s') && Ready(s', x + 1, x)
    ensures s'.threads == s.threads[t := Thread(7, {}, Idle)]
    ensures s'.locks == s.locks[lid := Handle(FREE, NOBODY)]
    ensures Release(x, x - 1, lid) in s'.rpc.reqs
  {
    s' := FullRelease(s, x, x - 1, t, lid);
    ReadyAgain(s, s', x);
  }

  /** Thread 1 acquires and releases lock 0. */
  lemma LockUsed() returns (s: State)
    ensures Reachable(s) && Ready(s, 4, 3)
    ensures Waits(s, 2, {}) && Waits(s, 3, {}) && Waits(s, 4, {})
    ensures IsFree(s.locks, 0) && Release(3, 2, 0) in s.rpc.reqs
  {
    s := Threads();
    s := NextAcquire(s, 2, 1, 0);
    s := NextRelease(s, 3, 1, 0);
  }

  /** Thread 2 acquires it. */
  lemma LockPassedOn() returns (s: State)
    ensures Reachable(s) && Ready(s, 5, 4)
    ensures Waits(s, 2, {0}) && Waits(s, 3, {}) && Waits(s, 4, {})
    ensures Releases(s.locks, 7, 0) && Release(3, 2, 0) in s.rpc.reqs
  {
    s := LockUsed();
    s := NextAcquire(s, 4, 2, 0);
  }

  /** Thread 3 calls the server; its header acknowledges the release. */
  lemma BeforeTheStaleRelease() returns (s: State)
    ensures Reachable(s) && Ready(s, 6, 4)
    ensures Waits(s, 2, {0}) && Waits(s, 4, {})
    ensures Releases(s.locks, 7, 0)
    ensures Release(3, 2, 0) in s.rpc.reqs && 3 !in For(s.rpc.window, 7)
  {
    s := LockPassedOn();
    s := CallAndArrive(s, 5, 4, 3, 1);
  }

  /** A copy of the release arrives: the server frees the lock that thread 2 holds. */
  lemma StaleRelease() returns (s: State)
    ensures Reachable(s) && Ready(s, 6, 4)
    ensures Waits(s, 2, {0}) && Waits(s, 4, {}) && IsFree(s.locks, 0)
  {
    s := BeforeTheStaleRelease();
    var i := |s.rpc.runs|;
    s := Arrive(s, Release(3, 2, 0));
    s := ServeReleased(s, i, Release(3, 2, 0), 0);
  }

  /** And thread 4 gets it too. */
  lemma StaleReleaseBreaksExclusion() returns (s: State)
    ensures Reachable(s)
    ensures Waits(s, 2, {0}) && Waits(s, 4, {0}) && !S.Exclusive(s)
  {
    s := StaleRelease();
    s := FullAcquire(s, 6, 4, 4, 0);
    assert S.Holds(s, 2, 0) && S.Holds(s, 4, 0);
  }
}
