/** What lock calls are answered, and what becomes of a process whose lock call failed:
    `lock_client` aborts it. */
module LockClients {
  import opened RpcTypes
  import opened LockSpec
  import opened LockSystem
  import P = RpcProtocol
  import R = RpcSafety
  import T = RpcTheorems
  import A = RpcAnswers
  import S = LockSafety

  /** The threads of client c, its RPC record and what it sent are as they were. */
  ghost predicate Unmoved(s: State, s': State, c: nat) {
    && c in s.rpc.clients && c in s'.rpc.clients && s'.rpc.clients[c] == s.rpc.clients[c]
    && (forall t :: t in s.threads && s.threads[t].clt == c ==> t in s'.threads && s'.threads[t] == s.threads[t])
    && (forall t :: t in s'.threads && s'.threads[t].clt == c ==> t in s.threads && s.threads[t].clt == c)
    && (forall q :: q in s'.rpc.reqs && q.clt == c ==> q in s.rpc.reqs)
  }

  /** The step is not taken by client c. */
  ghost predicate Foreign(s: P.State, a: P.Action, c: nat) {
    match a
    case Connect(d) => true
    case Call(d, _, _) => d != c
    case Transmit(d, _) => d != c
    case GotReply(p) => p.clt != c
    case Return(d, _) => d != c
    case StoreBind(d, _) => d != c
    case _ => true
  }

  lemma ForeignStep(s: P.State, a: P.Action, c: nat)
    requires R.PackedOk(s) && P.Enabled(s, a) && Foreign(s, a, c) && c in s.clients
    ensures var s' := P.Do(s, a);
            && c in s'.clients && s'.clients[c] == s.clients[c]
            && forall q :: q in s'.reqs && q.clt == c ==> q in s.reqs
  {
    match a
    case Connect(_) =>
    case Call(_, _, _) =>
    case Transmit(_, _) =>
    case GotReply(_) =>
    case Return(_, _) =>
    case StoreBind(_, _) =>
    case _ =>
      T.ServerActionFrame(s, a);
      SendsNothing(s, a);
  }

  /** The server transmits no requests. */
  lemma SendsNothing(s: P.State, a: P.Action)
    requires P.Enabled(s, a) && !a.Transmit?
    ensures P.Do(s, a).reqs == s.reqs
  {
    match a
    case Deliver(q) => DispatchSendsNothing(s, q);
    case Return(c, x) =>
    case _ =>
  }

  lemma DispatchSendsNothing(s: P.State, q: Request)
    ensures P.Dispatch(s, q).reqs == s.reqs
  {
    A.DispatchCases(s, q);
    assert P.Admitted(s, q).reqs == s.reqs;
  }

  lemma StepIsForeign(s: State, a: Action, c: nat)
    requires Enabled(s, a) && !Alive(s, c) && HasRpcAction(s, a)
    ensures Foreign(s.rpc, RpcAction(s, a), c)
  {}

  /** A composed step changes the protocol by its protocol step, and one thread at most,
      of a client that runs. */
  lemma ThreadStep(s: State, a: Action, c: nat)
    requires Enabled(s, a) && !Alive(s, c)
    ensures var s' := Do(s, a);
            && s'.rpc == (if HasRpcAction(s, a) then P.Do(s.rpc, RpcAction(s, a)) else s.rpc)
            && (forall t :: t in s.threads && s.threads[t].clt == c ==>
                  t in s'.threads && s'.threads[t] == s.threads[t])
            && (forall t :: t in s'.threads && s'.threads[t].clt == c ==> t in s.threads && s.threads[t].clt == c)
  {}

  lemma DeadStep(s: State, a: Action, c: nat)
    requires R.PackedOk(s.rpc) && Enabled(s, a) && !Alive(s, c) && c in s.rpc.clients
    ensures Unmoved(s, Do(s, a), c) && !Alive(Do(s, a), c)
  {
    ThreadStep(s, a, c);
    if HasRpcAction(s, a) {
      StepIsForeign(s, a, c);
      ForeignStep(s.rpc, RpcAction(s, a), c);
    }
  }

  lemma {:induction false} DeadStaysDead(before: seq<Action>, after: seq<Action>, c: nat)
    requires Legal(before) && Legal(before + after)
    requires c in After(before).rpc.clients && !Alive(After(before), c)
    ensures Unmoved(After(before), After(before + after), c) && !Alive(After(before + after), c)
    decreases |after|
  {
    if after == [] {
      assert before + after == before;
    } else {
      var n := |after| - 1;
      assert (before + after)[..|before + after| - 1] == before + after[..n];
      DeadStaysDead(before, after[..n], c);
      S.RpcSafe(before + after[..n]);
      DeadStep(After(before + after[..n]), after[n], c);
    }
  }

  /** A process goes on after a lock call exactly if that returned OK. */
  lemma AbortsExactly(s: State, t: nat)
    requires Enabled(s, Leave(t))
    ensures Alive(Do(s, Leave(t)), s.threads[t].clt) <==> S.ReturnValue(s, t).ret == OK
  {
    var s' := Do(s, Leave(t));
    S.LeaveFrame(s, t);
    assert s'.threads[t].activity == Aborted <==> S.ReturnValue(s, t).ret != OK;
    assert forall u :: u in s'.threads && u != t ==> s'.threads[u] == s.threads[u];
  }

  /** After a lock call that did not return OK, nothing of its process moves, calls or
      transmits again, whatever else happens. */
  lemma FailedCallStopsTheProcess(before: seq<Action>, t: nat, after: seq<Action>)
    requires Legal(before) && Enabled(After(before), Leave(t)) && S.ReturnValue(After(before), t).ret != OK
    requires Legal(before + [Leave(t)]) && Legal(before + [Leave(t)] + after)
    ensures var c := After(before).threads[t].clt;
            Unmoved(After(before + [Leave(t)]), After(before + [Leave(t)] + after), c)
  {
    var s, c := After(before), After(before).threads[t].clt;
    assert (before + [Leave(t)])[..|before|] == before;
    AbortsExactly(s, t);
    DeadStaysDead(before + [Leave(t)], after, c);
  }

  // ---------- What the handlers answer ----------

  lemma PacksKeepCalls(s: State, s': State)
    requires S.CallsOk(s) && S.Packs(s.rpc, s'.rpc, BIND)
    ensures S.CallsOk(s')
  {
    forall k | k in s'.rpc.packed
      ensures s'.rpc.packed[k].proc == BIND || S.IsLockCall(s'.rpc.packed[k])
    {
      assert k in s.rpc.packed ==> s'.rpc.packed[k] == s.rpc.packed[k];
    }
  }

  lemma AddsKeepCalls(s: State, s': State, c: nat, x: nat, proc: nat, lid: nat)
    requires S.CallsOk(s) && S.Adds(s.rpc, s'.rpc, c, x, proc, LockArgs(c, lid))
    requires proc == ACQUIRE || proc == RELEASE
    ensures S.CallsOk(s')
  {}

  lemma StepKeepsCalls(s: State, a: Action)
    requires R.Inv(s.rpc) && S.CallsOk(s) && Enabled(s, a)
    ensures S.CallsOk(Do(s, a))
  {
    var s' := Do(s, a);
    S.Projects(s, a);
    if a.CallAcquire? || a.CallRelease? {
      var c, proc := s.threads[a.t].clt, if a.CallAcquire? then ACQUIRE else RELEASE;
      S.FreshCall(s.rpc, c, proc, LockArgs(c, a.lid));
      AddsKeepCalls(s, s', c, s.rpc.clients[c].next, proc, a.lid);
    } else if !a.Spawn? {
      PacksNoLockCall(s, a);
      PacksKeepCalls(s, s');
    }
  }

  lemma PacksNoLockCall(s: State, a: Action)
    requires R.PackedOk(s.rpc) && Enabled(s, a) && !a.CallAcquire? && !a.CallRelease? && !a.Spawn?
    ensures S.Packs(s.rpc, P.Do(s.rpc, RpcAction(s, a)), BIND)
  {
    if a.Rpc? {
      S.QuietPacked(s, a.a);
    } else {
      S.OthersPackNothing(s.rpc, RpcAction(s, a));
    }
  }

  lemma StepKeepsRecords(s: State, a: Action)
    requires R.RunsOk(s.rpc) && S.CallsOk(s) && Consistent(s.locks) && Enabled(s, a)
    ensures Consistent(Do(s, a).locks)
  {
    match a
    case ServeAcquire(i, val) =>
      S.ServedCall(s, i);
      PassHolds(s.locks, s.rpc.runs[i].req.clt, LidOf(s.rpc.runs[i].req));
    case ServeRelease(i, val) => S.ServeReleaseFrees(s, i, val);
    case Leave(t) => S.LeaveFrame(s, t);
    case _ =>
  }

  lemma {:induction false} RecordsAgree(acts: seq<Action>)
    requires Legal(acts)
    ensures S.CallsOk(After(acts)) && Consistent(After(acts).locks)
  {
    if acts != [] {
      var n := |acts| - 1;
      RecordsAgree(acts[..n]);
      S.RpcSafe(acts[..n]);
      StepKeepsCalls(After(acts[..n]), acts[n]);
      StepKeepsRecords(After(acts[..n]), acts[n]);
    }
  }

  /** Nothing but the record of lid changes. */
  ghost predicate OnlyLock(a: Locks, b: Locks, lid: nat) {
    forall l :: l != lid ==> Lookup(b, l) == Lookup(a, l)
  }

  /** The server's answer to a release, in every run: OK if the caller's client owns the
      lock, which is then free, and RPCERR with nothing changed if not. */
  lemma ReleaseExactly(acts: seq<Action>, i: nat, val: int)
    requires Legal(acts) && Enabled(After(acts), ServeRelease(i, val))
    ensures var s, s' := After(acts), Do(After(acts), ServeRelease(i, val));
            var q := s.rpc.runs[i].req;
            var owned := Lookup(s.locks, LidOf(q)) == Handle(LOCKED, q.clt);
            && i < |s'.rpc.runs| && s'.rpc.runs[i].phase == P.Returned(Result(if owned then OK else RPCERR, val))
            && (owned ==> IsFree(s'.locks, LidOf(q)) && OnlyLock(s.locks, s'.locks, LidOf(q)))
            && (!owned ==> s'.locks == s.locks)
  {
    RecordsAgree(acts);
    S.RpcSafe(acts);
    S.ServedCall(After(acts), i);
    ReleaseAnswer(After(acts), i, val);
    ReleaseChanges(After(acts), i, val);
  }

  lemma ReleaseAnswer(s: State, i: nat, val: int)
    requires Enabled(s, ServeRelease(i, val)) && S.IsLockCall(s.rpc.runs[i].req) && Consistent(s.locks)
    ensures var q, runs' := s.rpc.runs[i].req, Do(s, ServeRelease(i, val)).rpc.runs;
            var owned := Lookup(s.locks, LidOf(q)) == Handle(LOCKED, q.clt);
            i < |runs'| && runs'[i].phase == P.Returned(Result(if owned then OK else RPCERR, val))
  {
    var q := s.rpc.runs[i].req;
    OwnerReleases(s.locks, q.clt, LidOf(q));
    S.Projects(s, ServeRelease(i, val));
    assert q.args[1] == LidOf(q);
  }

  lemma ReleaseChanges(s: State, i: nat, val: int)
    requires Enabled(s, ServeRelease(i, val)) && S.IsLockCall(s.rpc.runs[i].req) && Consistent(s.locks)
    ensures var q, locks' := s.rpc.runs[i].req, Do(s, ServeRelease(i, val)).locks;
            if Lookup(s.locks, LidOf(q)) == Handle(LOCKED, q.clt)
            then IsFree(locks', LidOf(q)) && OnlyLock(s.locks, locks', LidOf(q))
            else locks' == s.locks
  {
    var q := s.rpc.runs[i].req;
    OwnerReleases(s.locks, q.clt, LidOf(q));
    S.ServeReleaseFrees(s, i, val);
  }

  /** With consistent records the owner on record is who releases. */
  lemma OwnerReleases(locks: Locks, clt: int, lid: nat)
    requires Consistent(locks) && clt != NOBODY
    ensures Releases(locks, clt, lid) <==> Lookup(locks, lid) == Handle(LOCKED, clt)
  {}

  /** And to an acquire: OK, when the lock is free, and the caller's client owns it then. */
  lemma AcquireExactly(acts: seq<Action>, i: nat, val: int)
    requires Legal(acts) && Enabled(After(acts), ServeAcquire(i, val))
    ensures var s, s' := After(acts), Do(After(acts), ServeAcquire(i, val));
            var q := s.rpc.runs[i].req;
            && i < |s'.rpc.runs| && s'.rpc.runs[i].phase == P.Returned(Result(OK, val))
            && Lookup(s.locks, LidOf(q)).state == FREE
            && Lookup(s'.locks, LidOf(q)) == Handle(LOCKED, q.clt) && OnlyLock(s.locks, s'.locks, LidOf(q))
  {
    RecordsAgree(acts);
    S.RpcSafe(acts);
    S.ServedCall(After(acts), i);
    S.ServeAcquireGrants(After(acts), i, val);
  }

  // ---------- No client is refused ----------

  /** Every result is an error of the RPC library or OK. */
  ghost predicate NoRefusal(runs: seq<P.Run>) {
    forall i :: 0 <= i < |runs| && S.Over(runs[i]) ==> runs[i].phase.res.ret < 0 || runs[i].phase.res.ret == OK
  }

  /** The result that the step gives to run i, or the one it had. */
  lemma ResultsStep(r: P.State, a: P.Action, i: nat)
    requires P.Enabled(r, a) && i < |P.Do(r, a).runs| && S.Over(P.Do(r, a).runs[i])
    requires !(a.FinishHandler? && a.i == i)
    ensures i < |r.runs| && S.Over(r.runs[i]) && r.runs[i].phase.res == P.Do(r, a).runs[i].phase.res
  {
    if a.Deliver? {
      S.QuietDispatch(r, a.q);
      T.DispatchExtends(r, a.q);
    }
  }

  /** A release that still stands is not refused. */
  lemma StandingIsOwned(s: State, i: nat)
    requires S.OwnersOk(s) && S.Stands(s, i) && S.IsLockCall(s.rpc.runs[i].req)
    ensures Releases(s.locks, s.rpc.runs[i].req.args[0], LidOf(s.rpc.runs[i].req))
  {
    var lid := LidOf(s.rpc.runs[i].req);
    assert !IsFree(s.locks, lid);
  }

  /** What a handler returns while no release runs twice. */
  lemma HandlerIsKind(s: State, a: Action)
    requires R.RunsOk(s.rpc) && S.CallsOk(s) && S.OwnersOk(s) && Enabled(s, a) && HasRpcAction(s, a)
    requires RpcAction(s, a).FinishHandler?
    requires a.ServeRelease? ==> S.Stands(s, a.i)
    ensures RpcAction(s, a).res.ret < 0 || RpcAction(s, a).res.ret == OK
  {
    if a.ServeRelease? {
      S.ServedCall(s, a.i);
      StandingIsOwned(s, a.i);
    }
  }

  lemma StepKeepsKind(s: State, a: Action)
    requires S.Inv(s) && Enabled(s, a) && NoRefusal(s.rpc.runs) && (a.ServeRelease? ==> S.Stands(s, a.i))
    ensures NoRefusal(Do(s, a).rpc.runs)
  {
    S.Projects(s, a);
    if HasRpcAction(s, a) {
      var b := RpcAction(s, a);
      var runs' := P.Do(s.rpc, b).runs;
      if b.FinishHandler? {
        HandlerIsKind(s, a);
      }
      forall i | 0 <= i < |runs'| && S.Over(runs'[i])
        ensures runs'[i].phase.res.ret < 0 || runs'[i].phase.res.ret == OK
      {
        if !(b.FinishHandler? && b.i == i) {
          ResultsStep(s.rpc, b, i);
        }
      }
    }
  }

  lemma {:induction false} ResultsAreKind(acts: seq<Action>)
    requires Legal(acts) && S.ReleasesOnce(After(acts).rpc.runs)
    ensures NoRefusal(After(acts).rpc.runs)
  {
    if acts != [] {
      var before, a := acts[..|acts| - 1], acts[|acts| - 1];
      var s := After(before);
      S.RunsExtend(s, a);
      S.FewerReleasesOnce(s.rpc.runs, Do(s, a).rpc.runs);
      ResultsAreKind(before);
      S.ReleasesOnceIsHarmless(before);
      S.Safe(before);
      if a.ServeRelease? {
        S.ReleaseRunsOnce(s, a.i);
      }
      StepKeepsKind(s, a);
    }
  }

  /** While no release runs twice the lock server refuses nobody: a lock call that fails
      fails with an error of the RPC library. */
  lemma NobodyIsRefused(acts: seq<Action>, t: nat)
    requires Legal(acts) && S.ReleasesOnce(After(acts).rpc.runs) && Enabled(After(acts), Leave(t))
    ensures var ret := S.ReturnValue(After(acts), t).ret; ret == OK || ret < 0
  {
    var s := After(acts);
    var c, x := s.threads[t].clt, s.threads[t].activity.xid;
    ResultsAreKind(acts);
    S.RpcSafe(acts);
    R.ReturnSucceeds(s.rpc, c, x);
  }
}
