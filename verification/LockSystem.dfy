/** Client threads that lock and unlock through RPC, composed of the RPC protocol and
    the lock server's critical sections.  One server instance. */
module LockSystem {
  import opened RpcTypes
  import opened LockSpec
  import P = RpcProtocol

  const ACQUIRE: nat := 0x7001
  const RELEASE: nat := 0x7002

  /** What an application thread is doing: `lock_client` aborts the process when a
      call does not return OK. */
  datatype Activity = Idle | Acquiring(xid: nat, lid: nat) | Releasing(xid: nat, lid: nat) | Aborted

  /** `held`: locks whose acquire returned OK and whose release was not called yet. */
  datatype Thread = Thread(clt: nat, held: set<nat>, activity: Activity)

  /** Who stands behind a locked lock: an acquire granted but not yet returned, a
      thread in its critical section, or a release called but not yet served. */
  datatype Token = GrantedTo(clt: nat, xid: nat) | HeldBy(t: nat) | BeingReleased(clt: nat, xid: nat)

  /** `owner` is history. */
  datatype State = State(rpc: P.State, locks: Locks, threads: map<nat, Thread>, owner: map<nat, Token>)

  datatype Action =
    | Rpc(a: P.Action)
    | Spawn(t: nat, clt: nat)
    | CallAcquire(t: nat, lid: nat)
    | CallRelease(t: nat, lid: nat)
    | Leave(t: nat)
    | ServeAcquire(i: nat, val: int)
    | ServeRelease(i: nat, val: int)

  const Init := State(P.Init, map[], map[], map[])

  /** The process of client c runs: none of its threads has aborted it. */
  ghost predicate Alive(s: State, c: nat) {
    forall t :: t in s.threads && s.threads[t].clt == c ==> s.threads[t].activity != Aborted
  }

  /** The RPC actions that are not part of a lock operation.  The server boots once. */
  ghost predicate Unrelated(s: State, a: P.Action) {
    match a
    case Boot(_) => s.rpc.inst == 0
    case Call(c, proc, _) => Alive(s, c) && proc == BIND
    case Transmit(c, _) => Alive(s, c)
    case GotReply(p) => Alive(s, p.clt)
    case Return(c, x) => Alive(s, c) && (c, x) in s.rpc.packed && s.rpc.packed[(c, x)].proc == BIND
    case StoreBind(c, _) => Alive(s, c)
    case FinishHandler(i, _) => i < |s.rpc.runs| && s.rpc.runs[i].req.proc == BIND
    case _ => true
  }

  function LockArgs(clt: nat, lid: nat): seq<int> {
    [clt, lid]
  }

  /** The step that the composed action takes in the RPC protocol. */
  ghost predicate HasRpcAction(s: State, a: Action) {
    match a
    case CallAcquire(t, _) => t in s.threads
    case CallRelease(t, _) => t in s.threads
    case Leave(t) => t in s.threads && (s.threads[t].activity.Acquiring? || s.threads[t].activity.Releasing?)
    case Spawn(_, _) => false
    case ServeRelease(i, _) => i < |s.rpc.runs| && |s.rpc.runs[i].req.args| == 2
    case _ => true
  }

  ghost function RpcAction(s: State, a: Action): P.Action
    requires HasRpcAction(s, a)
  {
    match a
    case Rpc(b) => b
    case CallAcquire(t, lid) => P.Call(s.threads[t].clt, ACQUIRE, LockArgs(s.threads[t].clt, lid))
    case CallRelease(t, lid) => P.Call(s.threads[t].clt, RELEASE, LockArgs(s.threads[t].clt, lid))
    case Leave(t) => P.Return(s.threads[t].clt, s.threads[t].activity.xid)
    case ServeAcquire(i, val) => P.FinishHandler(i, Result(OK, val))
    case ServeRelease(i, val) =>
      var args := s.rpc.runs[i].req.args;
      P.FinishHandler(i, Result(if args[1] >= 0 && Releases(s.locks, args[0], args[1]) then OK else RPCERR, val))
  }

  /** Run i executes a lock operation on the arguments that lock_client sends. */
  ghost predicate Serves(s: State, i: nat, proc: nat) {
    && i < |s.rpc.runs| && s.rpc.runs[i].req.proc == proc
    && |s.rpc.runs[i].req.args| == 2 && s.rpc.runs[i].req.args[1] >= 0
  }

  ghost function LidOf(q: Request): nat {
    if |q.args| == 2 && q.args[1] >= 0 then q.args[1] else 0
  }

  ghost predicate Enabled(s: State, a: Action) {
    && (HasRpcAction(s, a) ==> P.Enabled(s.rpc, RpcAction(s, a)))
    && match a
       case Rpc(b) => Unrelated(s, b)
       case Spawn(t, clt) => t !in s.threads && clt in s.rpc.clients && Alive(s, clt)
       case CallAcquire(t, lid) => t in s.threads && s.threads[t].activity == Idle && Alive(s, s.threads[t].clt)
       case CallRelease(t, lid) =>
         && t in s.threads && s.threads[t].activity == Idle && lid in s.threads[t].held
         && Alive(s, s.threads[t].clt)
       case Leave(t) => HasRpcAction(s, a) && Alive(s, s.threads[t].clt)
       case ServeAcquire(i, _) => Serves(s, i, ACQUIRE) && IsFree(s.locks, LidOf(s.rpc.runs[i].req))
       case ServeRelease(i, _) => Serves(s, i, RELEASE)
  }

  ghost function WithThread(s: State, t: nat, thr: Thread): State {
    s.(threads := s.threads[t := thr])
  }

  /** `call1` returned to the thread. */
  ghost function Returned(s: State, t: nat, res: Result): State
    requires HasRpcAction(s, Leave(t))
  {
    var thr := s.threads[t];
    if res.ret != OK then WithThread(s, t, thr.(activity := Aborted))
    else match thr.activity
      case Acquiring(_, lid) =>
        WithThread(s, t, thr.(activity := Idle, held := thr.held + {lid})).(owner := s.owner[lid := HeldBy(t)])
      case _ => WithThread(s, t, thr.(activity := Idle))
  }

  ghost function Do(s: State, a: Action): State
    requires Enabled(s, a)
  {
    var s' := if HasRpcAction(s, a) then s.(rpc := P.Do(s.rpc, RpcAction(s, a))) else s;
    match a
    case Rpc(_) => s'
    case Spawn(t, clt) => WithThread(s', t, Thread(clt, {}, Idle))
    case CallAcquire(t, lid) =>
      var thr := s.threads[t];
      WithThread(s', t, thr.(activity := Acquiring(s.rpc.clients[thr.clt].next, lid)))
    case CallRelease(t, lid) =>
      var thr := s.threads[t];
      var x := s.rpc.clients[thr.clt].next;
      WithThread(s', t, thr.(activity := Releasing(x, lid), held := thr.held - {lid})).(
        owner := s.owner[lid := BeingReleased(thr.clt, x)])
    case Leave(t) =>
      var thr := s.threads[t];
      Returned(s', t, P.C.Outcome(s.rpc.clients[thr.clt].calls[thr.activity.xid]))
    case ServeAcquire(i, _) =>
      var q := s.rpc.runs[i].req;
      s'.(locks := Pass(s.locks, q.args[0], LidOf(q)), owner := s.owner[LidOf(q) := GrantedTo(q.clt, q.xid)])
    case ServeRelease(i, _) =>
      var q := s.rpc.runs[i].req;
      if Releases(s.locks, q.args[0], LidOf(q)) then
        s'.(locks := LockSpec.Release(s.locks, q.args[0], LidOf(q)), owner := s.owner - {LidOf(q)})
      else s'
  }

  ghost predicate Legal(acts: seq<Action>)
    decreases |acts|, 0
  {
    acts == [] ||
    (Legal(acts[..|acts| - 1]) && Enabled(After(acts[..|acts| - 1]), acts[|acts| - 1]))
  }

  ghost function After(acts: seq<Action>): State
    requires Legal(acts)
    decreases |acts|, 1
  {
    if acts == [] then Init else Do(After(acts[..|acts| - 1]), acts[|acts| - 1])
  }
}

/** Client-visible mutual exclusion. */
module LockSafety {
  import opened RpcTypes
  import opened LockSpec
  import opened LockSystem
  import P = RpcProtocol
  import R = RpcSafety
  import T = RpcTheorems

  ghost predicate Over(r: P.Run) {
    r.phase.Returned? || r.phase.Saved?
  }

  /** Some execution of the request has finished. */
  ghost predicate Finished(runs: seq<P.Run>, c: nat, x: nat) {
    exists i :: 0 <= i < |runs| && R.Executes(runs[i], c, x) && Over(runs[i])
  }

  ghost predicate IsLockCall(q: Request) {
    (q.proc == ACQUIRE || q.proc == RELEASE) && |q.args| == 2 && q.args[0] == q.clt && q.args[1] >= 0
  }

  ghost predicate CallsOk(s: State) {
    forall k :: k in s.rpc.packed ==> s.rpc.packed[k].proc == BIND || IsLockCall(s.rpc.packed[k])
  }

  ghost predicate Requests(s: State, c: nat, x: nat, proc: nat, lid: nat) {
    (c, x) in s.rpc.packed && s.rpc.packed[(c, x)].proc == proc && LidOf(s.rpc.packed[(c, x)]) == lid
  }

  ghost predicate ThreadOk(s: State, thr: Thread) {
    && thr.clt in s.rpc.clients
    && (thr.activity.Acquiring? ==> Requests(s, thr.clt, thr.activity.xid, ACQUIRE, thr.activity.lid))
  }

  ghost predicate SameCall(a: Thread, b: Thread) {
    a.activity.Acquiring? && b.activity.Acquiring? && a.clt == b.clt && a.activity.xid == b.activity.xid
  }

  ghost predicate ThreadsOk(s: State) {
    && (forall t :: t in s.threads ==> ThreadOk(s, s.threads[t]))
    && (forall t, u :: t in s.threads && u in s.threads && SameCall(s.threads[t], s.threads[u]) ==> t == u)
  }

  ghost function OwnerClient(s: State, tok: Token): int {
    match tok
    case GrantedTo(c, _) => c
    case BeingReleased(c, _) => c
    case HeldBy(t) => if t in s.threads then s.threads[t].clt else NOBODY
  }

  /** A lock is LOCKED iff it has an owner, and by that owner's client. */
  ghost predicate OwnersOk(s: State) {
    && (forall lid :: lid in s.owner <==> !IsFree(s.locks, lid))
    && (forall lid :: lid in s.owner ==> Lookup(s.locks, lid).clt == OwnerClient(s, s.owner[lid]))
  }

  ghost predicate HoldersOk(s: State) {
    && (forall t, lid :: t in s.threads && lid in s.threads[t].held ==> lid in s.owner && s.owner[lid] == HeldBy(t))
    && (forall lid :: lid in s.owner && s.owner[lid].HeldBy? ==> s.owner[lid].t in s.threads)
  }

  ghost predicate GrantsOk(s: State) {
    forall t :: t in s.threads && s.threads[t].activity.Acquiring? ==>
      var thr := s.threads[t];
      Finished(s.rpc.runs, thr.clt, thr.activity.xid) ==>
        thr.activity.lid in s.owner && s.owner[thr.activity.lid] == GrantedTo(thr.clt, thr.activity.xid)
  }

  /** A release that has been called and not yet served stands behind its lock. */
  ghost predicate ReleasesOk(s: State) {
    forall k :: k in s.rpc.packed && s.rpc.packed[k].proc == RELEASE && !Finished(s.rpc.runs, k.0, k.1) ==>
      var lid := LidOf(s.rpc.packed[k]);
      lid in s.owner && s.owner[lid] == BeingReleased(k.0, k.1)
  }

  /** What exclusion rests on. */
  ghost predicate LockInv(s: State) {
    CallsOk(s) && ThreadsOk(s) && OwnersOk(s) && HoldersOk(s) && GrantsOk(s)
  }

  ghost predicate Inv(s: State) {
    R.Inv(s.rpc) && LockInv(s)
  }

  // ---------- Steps of the protocol that are no part of a lock operation ----------

  /** Requests are only added, all of them bind, and no lock operation finishes. */
  ghost predicate Quiet(r: P.State, r': P.State) {
    && (forall c :: c in r.clients ==> c in r'.clients)
    && (forall k :: k in r.packed ==> k in r'.packed && r'.packed[k] == r.packed[k])
    && (forall k :: k in r'.packed && k !in r.packed ==> r'.packed[k].proc == BIND)
    && (forall k :: k in r.packed && r.packed[k].proc != BIND ==>
          (Finished(r.runs, k.0, k.1) <==> Finished(r'.runs, k.0, k.1)))
  }

  /** Threads that advance without finishing, or have finished already. */
  ghost predicate SameOver(a: seq<P.Run>, b: seq<P.Run>) {
    && |a| <= |b|
    && (forall i :: 0 <= i < |a| ==> b[i].req == a[i].req && (Over(a[i]) <==> Over(b[i])))
    && (forall i :: |a| <= i < |b| ==> !Over(b[i]))
  }

  lemma SameOverFinished(a: seq<P.Run>, b: seq<P.Run>, c: nat, x: nat)
    requires SameOver(a, b)
    ensures Finished(a, c, x) <==> Finished(b, c, x)
  {
    if Finished(a, c, x) {
      var i :| 0 <= i < |a| && R.Executes(a[i], c, x) && Over(a[i]);
      assert R.Executes(b[i], c, x) && Over(b[i]);
    }
    if Finished(b, c, x) {
      var i :| 0 <= i < |b| && R.Executes(b[i], c, x) && Over(b[i]);
      assert R.Executes(a[i], c, x) && Over(a[i]);
    }
  }

  lemma QuietRuns(s: P.State, a: P.Action)
    requires P.Enabled(s, a) && !a.FinishHandler?
    ensures SameOver(s.runs, P.Do(s, a).runs)
  {
    if a.Deliver? {
      QuietDispatch(s, a.q);
    }
  }

  lemma QuietDispatch(s: P.State, q: Request)
    ensures SameOver(s.runs, P.Dispatch(s, q).runs)
  {
    T.DispatchAdmits(s, q);
  }

  lemma QuietStep(s: State, a: P.Action)
    requires R.Inv(s.rpc) && P.Enabled(s.rpc, a) && Unrelated(s, a)
    ensures Quiet(s.rpc, P.Do(s.rpc, a))
  {
    var r, r' := s.rpc, P.Do(s.rpc, a);
    QuietPacked(s, a);
    forall k | k in r.packed && r.packed[k].proc != BIND
      ensures Finished(r.runs, k.0, k.1) <==> Finished(r'.runs, k.0, k.1)
    {
      if a.FinishHandler? {
        BindFinishes(r, a.i, a.res, k.0, k.1);
      } else {
        QuietRuns(r, a);
        SameOverFinished(r.runs, r'.runs, k.0, k.1);
      }
    }
  }

  /** All requests on record stay, and the new ones are for handler proc. */
  ghost predicate Packs(r: P.State, r': P.State, proc: nat) {
    && (forall c :: c in r.clients ==> c in r'.clients)
    && (forall k :: k in r.packed ==> k in r'.packed && r'.packed[k] == r.packed[k])
    && (forall k :: k in r'.packed && k !in r.packed ==> r'.packed[k].proc == proc)
  }

  lemma QuietPacked(s: State, a: P.Action)
    requires P.Enabled(s.rpc, a) && Unrelated(s, a)
    requires R.PackedOk(s.rpc)
    ensures Packs(s.rpc, P.Do(s.rpc, a), BIND)
  {
    if a.Call? {
      R.CallIsFresh(s.rpc, a.clt);
      CallPacks(s.rpc, a.clt, a.proc, a.args);
    } else {
      OthersPackNothing(s.rpc, a);
    }
  }

  lemma CallPacks(r: P.State, c: nat, proc: nat, args: seq<int>)
    requires P.Enabled(r, P.Call(c, proc, args)) && (c, r.clients[c].next) !in r.packed
    ensures Packs(r, P.Do(r, P.Call(c, proc, args)), proc)
  {}

  lemma OthersPackNothing(r: P.State, a: P.Action)
    requires P.Enabled(r, a) && !a.Call?
    ensures Packs(r, P.Do(r, a), BIND)
  {
    if !(a.Return? || a.Connect? || a.Transmit? || a.GotReply? || a.StoreBind?) {
      T.ServerActionFrame(r, a);
    }
  }

  /** A bind that finishes is no lock operation. */
  lemma BindFinishes(r: P.State, i: nat, res: Result, c: nat, x: nat)
    requires R.RunsOk(r) && P.Enabled(r, P.FinishHandler(i, res)) && r.runs[i].req.proc == BIND
    requires (c, x) in r.packed && r.packed[(c, x)].proc != BIND
    ensures Finished(r.runs, c, x) <==> Finished(P.Do(r, P.FinishHandler(i, res)).runs, c, x)
  {
    var runs' := P.Do(r, P.FinishHandler(i, res)).runs;
    assert R.RunOk(r, r.runs[i]);
    if Finished(r.runs, c, x) {
      var j :| 0 <= j < |r.runs| && R.Executes(r.runs[j], c, x) && Over(r.runs[j]);
      assert R.Executes(runs'[j], c, x) && Over(runs'[j]);
    }
    if Finished(runs', c, x) {
      var j :| 0 <= j < |runs'| && R.Executes(runs'[j], c, x) && Over(runs'[j]);
      assert j != i && R.Executes(r.runs[j], c, x) && Over(r.runs[j]);
    }
  }

  lemma QuietKeepsThreads(s: State, r': P.State)
    requires ThreadsOk(s) && Quiet(s.rpc, r')
    ensures ThreadsOk(s.(rpc := r'))
  {
    var s' := s.(rpc := r');
    forall t | t in s'.threads
      ensures ThreadOk(s', s'.threads[t])
    {
      assert ThreadOk(s, s.threads[t]);
    }
  }

  lemma QuietKeepsGrants(s: State, r': P.State)
    requires ThreadsOk(s) && GrantsOk(s) && Quiet(s.rpc, r')
    ensures GrantsOk(s.(rpc := r'))
  {
    forall t | t in s.threads && s.threads[t].activity.Acquiring?
      ensures Finished(r'.runs, s.threads[t].clt, s.threads[t].activity.xid) ==>
                Finished(s.rpc.runs, s.threads[t].clt, s.threads[t].activity.xid)
    {
      assert ThreadOk(s, s.threads[t]);
      var k := (s.threads[t].clt, s.threads[t].activity.xid);
      assert k in s.rpc.packed;
    }
  }

  lemma QuietKeepsReleases(s: State, r': P.State)
    requires ReleasesOk(s) && Quiet(s.rpc, r')
    ensures ReleasesOk(s.(rpc := r'))
  {}

  lemma QuietKeeps(s: State, r': P.State)
    requires LockInv(s) && Quiet(s.rpc, r')
    ensures LockInv(s.(rpc := r'))
  {
    QuietKeepsThreads(s, r');
    QuietKeepsGrants(s, r');
  }

  // ---------- Calling ----------

  /** A fresh call is on record under an xid that nothing has executed. */
  ghost predicate Adds(r: P.State, r': P.State, c: nat, x: nat, proc: nat, args: seq<int>) {
    && (c, x) !in r.packed && !Finished(r.runs, c, x)
    && (c, x) in r'.packed && r'.packed == r.packed[(c, x) := r'.packed[(c, x)]]
    && r'.packed[(c, x)].proc == proc && r'.packed[(c, x)].args == args && r'.packed[(c, x)].clt == c
    && r'.runs == r.runs && r'.clients.Keys == r.clients.Keys
  }

  lemma FreshCall(r: P.State, c: nat, proc: nat, args: seq<int>)
    requires R.Inv(r) && P.Enabled(r, P.Call(c, proc, args))
    ensures Adds(r, P.Do(r, P.Call(c, proc, args)), c, r.clients[c].next, proc, args)
  {
    R.CallIsFresh(r, c);
    var x := r.clients[c].next;
    forall i | 0 <= i < |r.runs|
      ensures !R.Executes(r.runs[i], c, x)
    {
      assert R.RunOk(r, r.runs[i]);
    }
    assert R.ClientOk(r, c, r.clients[c]);
  }

  ghost predicate Calls(s: State, s': State, t: nat, x: nat, proc: nat, lid: nat) {
    t in s.threads && Adds(s.rpc, s'.rpc, s.threads[t].clt, x, proc, LockArgs(s.threads[t].clt, lid))
  }

  ghost predicate CallsAcquire(s: State, s': State, t: nat, x: nat, lid: nat) {
    && Calls(s, s', t, x, ACQUIRE, lid)
    && s' == s.(rpc := s'.rpc, threads := s.threads[t := s.threads[t].(activity := Acquiring(x, lid))])
  }

  lemma CallAcquireKeepsThreads(s: State, s': State, t: nat, x: nat, lid: nat)
    requires CallsOk(s) && ThreadsOk(s) && CallsAcquire(s, s', t, x, lid)
    ensures CallsOk(s') && ThreadsOk(s')
  {
    forall u | u in s'.threads
      ensures ThreadOk(s', s'.threads[u])
    {
      assert ThreadOk(s, s.threads[u]);
    }
    forall u, v | u in s'.threads && v in s'.threads && SameCall(s'.threads[u], s'.threads[v])
      ensures u == v
    {
      assert ThreadOk(s, s.threads[u]) && ThreadOk(s, s.threads[v]);
    }
  }

  lemma CallAcquireKeepsOwners(s: State, s': State, t: nat, x: nat, lid: nat)
    requires OwnersOk(s) && HoldersOk(s) && CallsAcquire(s, s', t, x, lid)
    ensures OwnersOk(s') && HoldersOk(s')
  {}

  lemma CallAcquireKeepsGrants(s: State, s': State, t: nat, x: nat, lid: nat)
    requires GrantsOk(s) && CallsAcquire(s, s', t, x, lid)
    ensures GrantsOk(s')
  {}

  lemma CallAcquireKeepsReleases(s: State, s': State, t: nat, x: nat, lid: nat)
    requires ReleasesOk(s) && CallsAcquire(s, s', t, x, lid)
    ensures ReleasesOk(s')
  {}

  ghost predicate CallsRelease(s: State, s': State, t: nat, x: nat, lid: nat) {
    && Calls(s, s', t, x, RELEASE, lid)
    && lid in s.owner && s.owner[lid] == HeldBy(t)
    && var thr := s.threads[t];
       s' == s.(rpc := s'.rpc,
                threads := s.threads[t := thr.(activity := Releasing(x, lid), held := thr.held - {lid})],
                owner := s.owner[lid := BeingReleased(s.threads[t].clt, x)])
  }

  lemma CallReleaseKeepsThreads(s: State, s': State, t: nat, x: nat, lid: nat)
    requires CallsOk(s) && ThreadsOk(s) && CallsRelease(s, s', t, x, lid)
    ensures CallsOk(s') && ThreadsOk(s')
  {
    forall u | u in s'.threads
      ensures ThreadOk(s', s'.threads[u])
    {
      assert ThreadOk(s, s.threads[u]);
    }
  }

  lemma CallReleaseKeepsOwners(s: State, s': State, t: nat, x: nat, lid: nat)
    requires OwnersOk(s) && HoldersOk(s) && CallsRelease(s, s', t, x, lid)
    ensures OwnersOk(s') && HoldersOk(s')
  {}

  lemma CallReleaseKeepsGrants(s: State, s': State, t: nat, x: nat, lid: nat)
    requires GrantsOk(s) && CallsRelease(s, s', t, x, lid)
    ensures GrantsOk(s')
  {}

  lemma CallReleaseKeepsReleases(s: State, s': State, t: nat, x: nat, lid: nat)
    requires ReleasesOk(s) && CallsRelease(s, s', t, x, lid)
    ensures ReleasesOk(s')
  {}

  lemma CallAcquireCalls(s: State, t: nat, lid: nat)
    requires R.Inv(s.rpc) && Enabled(s, CallAcquire(t, lid))
    ensures CallsAcquire(s, Do(s, CallAcquire(t, lid)), t, s.rpc.clients[s.threads[t].clt].next, lid)
  {
    var thr := s.threads[t];
    FreshCall(s.rpc, thr.clt, ACQUIRE, LockArgs(thr.clt, lid));
  }

  lemma CallAcquireKeeps(s: State, s': State, t: nat, x: nat, lid: nat)
    requires LockInv(s) && CallsAcquire(s, s', t, x, lid)
    ensures LockInv(s')
  {
    CallAcquireKeepsThreads(s, s', t, x, lid);
    CallAcquireKeepsOwners(s, s', t, x, lid);
    CallAcquireKeepsGrants(s, s', t, x, lid);
  }

  lemma CallReleaseCalls(s: State, t: nat, lid: nat)
    requires R.Inv(s.rpc) && HoldersOk(s) && Enabled(s, CallRelease(t, lid))
    ensures CallsRelease(s, Do(s, CallRelease(t, lid)), t, s.rpc.clients[s.threads[t].clt].next, lid)
  {
    var thr := s.threads[t];
    FreshCall(s.rpc, thr.clt, RELEASE, LockArgs(thr.clt, lid));
  }

  lemma CallReleaseKeeps(s: State, s': State, t: nat, x: nat, lid: nat)
    requires LockInv(s) && CallsRelease(s, s', t, x, lid)
    ensures LockInv(s')
  {
    CallReleaseKeepsThreads(s, s', t, x, lid);
    CallReleaseKeepsOwners(s, s', t, x, lid);
    CallReleaseKeepsGrants(s, s', t, x, lid);
  }

  // ---------- Returning ----------

  /** What `call1` returns to thread t. */
  ghost function ReturnValue(s: State, t: nat): Result
    requires Enabled(s, Leave(t))
  {
    P.C.Outcome(s.rpc.clients[s.threads[t].clt].calls[s.threads[t].activity.xid])
  }

  /** An acquire that returns OK was executed, and its grant is still outstanding. */
  lemma OkMeansGranted(s: State, t: nat)
    requires R.Inv(s.rpc) && ThreadsOk(s) && GrantsOk(s)
    requires Enabled(s, Leave(t)) && s.threads[t].activity.Acquiring?
    requires ReturnValue(s, t).ret == OK
    ensures GrantedOutstanding(s, t)
  {
    var c, x := s.threads[t].clt, s.threads[t].activity.xid;
    R.ReturnSucceeds(s.rpc, c, x);
    var res := P.C.Outcome(s.rpc.clients[c].calls[x]);
    var i :| 0 <= i < |s.rpc.runs| && R.Executes(s.rpc.runs[i], c, x) && R.HasResult(s.rpc.runs[i], res);
    assert Over(s.rpc.runs[i]);
    assert Finished(s.rpc.runs, c, x);
  }

  ghost predicate GrantedOutstanding(s: State, t: nat)
    requires t in s.threads && s.threads[t].activity.Acquiring?
  {
    var thr := s.threads[t];
    thr.activity.lid in s.owner && s.owner[thr.activity.lid] == GrantedTo(thr.clt, thr.activity.xid)
  }

  /** What the return of a call changes outside the protocol. */
  ghost predicate Leaves(s: State, s': State, t: nat, res: Result) {
    && HasRpcAction(s, Leave(t))
    && s'.rpc.runs == s.rpc.runs && s'.rpc.packed == s.rpc.packed && s'.rpc.clients.Keys == s.rpc.clients.Keys
    && s' == Returned(s, t, res).(rpc := s'.rpc)
    && (res.ret == OK && s.threads[t].activity.Acquiring? ==> GrantedOutstanding(s, t))
  }

  lemma LeaveKeepsThreads(s: State, s': State, t: nat, res: Result)
    requires CallsOk(s) && ThreadsOk(s) && Leaves(s, s', t, res)
    ensures CallsOk(s') && ThreadsOk(s')
  {
    forall u | u in s'.threads
      ensures ThreadOk(s', s'.threads[u])
    {
      assert ThreadOk(s, s.threads[u]);
    }
  }

  lemma LeaveKeepsOwners(s: State, s': State, t: nat, res: Result)
    requires OwnersOk(s) && HoldersOk(s) && Leaves(s, s', t, res)
    ensures OwnersOk(s') && HoldersOk(s')
  {}

  lemma LeaveKeepsGrants(s: State, s': State, t: nat, res: Result)
    requires GrantsOk(s) && ThreadsOk(s) && Leaves(s, s', t, res)
    ensures GrantsOk(s')
  {
    forall u | u in s'.threads && s'.threads[u].activity.Acquiring?
      ensures u != t && s'.threads[u] == s.threads[u]
    {}
    forall u | u in s.threads && s.threads[u].activity.Acquiring? && u != t
      ensures s.threads[t].activity.Acquiring? ==> !SameCall(s.threads[t], s.threads[u])
    {}
  }

  lemma LeaveKeepsReleases(s: State, s': State, t: nat, res: Result)
    requires ReleasesOk(s) && Leaves(s, s', t, res)
    ensures ReleasesOk(s')
  {}

  lemma LeaveFrame(s: State, t: nat)
    requires Enabled(s, Leave(t))
    ensures var s' := Do(s, Leave(t));
            && s'.rpc.runs == s.rpc.runs && s'.rpc.packed == s.rpc.packed
            && s'.rpc.clients.Keys == s.rpc.clients.Keys
            && s' == Returned(s, t, ReturnValue(s, t)).(rpc := s'.rpc)
  {
    Projects(s, Leave(t));
    ReturnFrame(s.rpc, s.threads[t].clt, s.threads[t].activity.xid);
  }

  lemma ReturnFrame(r: P.State, c: nat, x: nat)
    requires P.Enabled(r, P.Return(c, x))
    ensures var r' := P.Do(r, P.Return(c, x));
            r'.runs == r.runs && r'.packed == r.packed && r'.clients.Keys == r.clients.Keys
  {}

  lemma LeaveLeaves(s: State, t: nat)
    requires R.Inv(s.rpc) && ThreadsOk(s) && GrantsOk(s) && Enabled(s, Leave(t))
    ensures Leaves(s, Do(s, Leave(t)), t, ReturnValue(s, t))
  {
    LeaveFrame(s, t);
    if ReturnValue(s, t).ret == OK && s.threads[t].activity.Acquiring? {
      OkMeansGranted(s, t);
    }
  }

  lemma LeaveKeeps(s: State, s': State, t: nat, res: Result)
    requires LockInv(s) && Leaves(s, s', t, res)
    ensures LockInv(s')
  {
    LeaveKeepsThreads(s, s', t, res);
    LeaveKeepsOwners(s, s', t, res);
    LeaveKeepsGrants(s, s', t, res);
  }

  // ---------- Serving ----------

  /** The execution that finishes, and no other. */
  lemma FinishFrame(r: P.State, i: nat, res: Result, c: nat, x: nat)
    requires P.Enabled(r, P.FinishHandler(i, res))
    ensures var r' := P.Do(r, P.FinishHandler(i, res));
            && r'.packed == r.packed && r'.clients == r.clients
            && (Finished(r'.runs, c, x) <==> Finished(r.runs, c, x) || R.Executes(r.runs[i], c, x))
  {
    var runs' := P.Do(r, P.FinishHandler(i, res)).runs;
    if Finished(r.runs, c, x) {
      var j :| 0 <= j < |r.runs| && R.Executes(r.runs[j], c, x) && Over(r.runs[j]);
      assert R.Executes(runs'[j], c, x) && Over(runs'[j]);
    }
    if R.Executes(r.runs[i], c, x) {
      assert R.Executes(runs'[i], c, x) && Over(runs'[i]);
    }
    if Finished(runs', c, x) {
      var j :| 0 <= j < |runs'| && R.Executes(runs'[j], c, x) && Over(runs'[j]);
      assert R.Executes(r.runs[j], c, x);
      assert j != i ==> Over(r.runs[j]);
    }
  }

  lemma ServedCall(s: State, i: nat)
    requires R.RunsOk(s.rpc) && CallsOk(s) && i < |s.rpc.runs| && s.rpc.runs[i].req.proc != BIND
    ensures var q := s.rpc.runs[i].req;
            (q.clt, q.xid) in s.rpc.packed && s.rpc.packed[(q.clt, q.xid)] == q && IsLockCall(q)
  {
    assert R.RunOk(s.rpc, s.rpc.runs[i]);
  }

  lemma ServeAcquireKeepsThreads(s: State, i: nat, val: int)
    requires CallsOk(s) && ThreadsOk(s) && Enabled(s, ServeAcquire(i, val))
    ensures CallsOk(Do(s, ServeAcquire(i, val))) && ThreadsOk(Do(s, ServeAcquire(i, val)))
  {
    var s' := Do(s, ServeAcquire(i, val));
    forall u | u in s'.threads
      ensures ThreadOk(s', s'.threads[u])
    {
      assert ThreadOk(s, s.threads[u]);
    }
  }

  ghost predicate Grants(s: State, s': State, lid: nat, c: nat, x: nat) {
    && s'.locks == s.locks[lid := Handle(LOCKED, c)] && s'.owner == s.owner[lid := GrantedTo(c, x)]
    && s'.threads == s.threads
  }

  lemma GrantsKeepOwners(s: State, s': State, lid: nat, c: nat, x: nat)
    requires OwnersOk(s) && HoldersOk(s) && IsFree(s.locks, lid) && Grants(s, s', lid, c, x)
    ensures OwnersOk(s') && HoldersOk(s')
  {}

  lemma ServeAcquireGrants(s: State, i: nat, val: int)
    requires Enabled(s, ServeAcquire(i, val)) && IsLockCall(s.rpc.runs[i].req)
    ensures var q := s.rpc.runs[i].req; Grants(s, Do(s, ServeAcquire(i, val)), LidOf(q), q.clt, q.xid)
  {}

  lemma ServeAcquireKeepsOwners(s: State, i: nat, val: int)
    requires R.RunsOk(s.rpc) && CallsOk(s) && OwnersOk(s) && HoldersOk(s) && Enabled(s, ServeAcquire(i, val))
    ensures OwnersOk(Do(s, ServeAcquire(i, val))) && HoldersOk(Do(s, ServeAcquire(i, val)))
  {
    var q := s.rpc.runs[i].req;
    ServedCall(s, i);
    ServeAcquireGrants(s, i, val);
    GrantsKeepOwners(s, Do(s, ServeAcquire(i, val)), LidOf(q), q.clt, q.xid);
  }

  lemma ServeAcquireKeepsGrants(s: State, i: nat, val: int)
    requires R.RunsOk(s.rpc) && LockInv(s) && Enabled(s, ServeAcquire(i, val))
    ensures GrantsOk(Do(s, ServeAcquire(i, val)))
  {
    ServedCall(s, i);
    var s' := Do(s, ServeAcquire(i, val));
    forall t | t in s'.threads && s'.threads[t].activity.Acquiring?
            && Finished(s'.rpc.runs, s'.threads[t].clt, s'.threads[t].activity.xid)
      ensures var thr := s'.threads[t];
              thr.activity.lid in s'.owner && s'.owner[thr.activity.lid] == GrantedTo(thr.clt, thr.activity.xid)
    {
      assert ThreadOk(s, s.threads[t]);
      FinishFrame(s.rpc, i, Result(OK, val), s.threads[t].clt, s.threads[t].activity.xid);
    }
  }

  lemma ServeAcquireKeepsReleases(s: State, i: nat, val: int)
    requires R.RunsOk(s.rpc) && CallsOk(s) && OwnersOk(s) && ReleasesOk(s) && Enabled(s, ServeAcquire(i, val))
    ensures ReleasesOk(Do(s, ServeAcquire(i, val)))
  {
    ServedCall(s, i);
    var s' := Do(s, ServeAcquire(i, val));
    forall k | k in s'.rpc.packed && s'.rpc.packed[k].proc == RELEASE && !Finished(s'.rpc.runs, k.0, k.1)
      ensures var lid := LidOf(s'.rpc.packed[k]); lid in s'.owner && s'.owner[lid] == BeingReleased(k.0, k.1)
    {
      FinishFrame(s.rpc, i, Result(OK, val), k.0, k.1);
    }
  }

  lemma ServeAcquireKeeps(s: State, i: nat, val: int)
    requires R.RunsOk(s.rpc) && LockInv(s) && Enabled(s, ServeAcquire(i, val))
    ensures LockInv(Do(s, ServeAcquire(i, val)))
  {
    ServeAcquireKeepsThreads(s, i, val);
    ServeAcquireKeepsOwners(s, i, val);
    ServeAcquireKeepsGrants(s, i, val);
  }

  ghost predicate Holds(s: State, t: nat, lid: nat) {
    t in s.threads && lid in s.threads[t].held
  }

  /** The server has executed the acquire of lid from which thread t has not returned. */
  ghost predicate Awaits(s: State, t: nat, lid: nat) {
    && t in s.threads && s.threads[t].activity.Acquiring? && s.threads[t].activity.lid == lid
    && Finished(s.rpc.runs, s.threads[t].clt, s.threads[t].activity.xid)
  }

  /** The release that run i executes frees a lock that a thread holds or was granted. */
  ghost predicate Harmful(s: State, i: nat) {
    && Serves(s, i, RELEASE)
    && var q := s.rpc.runs[i].req;
       && Releases(s.locks, q.args[0], LidOf(q))
       && exists t :: Holds(s, t, LidOf(q)) || Awaits(s, t, LidOf(q))
  }

  ghost predicate Freed(s: State, s': State, lid: nat) {
    && s'.locks == s.locks[lid := Handle(FREE, NOBODY)] && s'.owner == s.owner - {lid}
    && s'.threads == s.threads
  }

  lemma ServeReleaseFrees(s: State, i: nat, val: int)
    requires Enabled(s, ServeRelease(i, val))
    ensures var q, s' := s.rpc.runs[i].req, Do(s, ServeRelease(i, val));
            if Releases(s.locks, q.args[0], LidOf(q)) then Freed(s, s', LidOf(q))
            else s' == s.(rpc := s'.rpc)
  {}

  lemma FreedKeepsOwners(s: State, s': State, lid: nat)
    requires OwnersOk(s) && HoldersOk(s) && Freed(s, s', lid) && forall t :: !Holds(s, t, lid)
    ensures OwnersOk(s') && HoldersOk(s')
  {
    forall t, l | t in s'.threads && l in s'.threads[t].held
      ensures l in s'.owner && s'.owner[l] == HeldBy(t)
    {
      assert Holds(s, t, l);
    }
  }

  lemma ServeReleaseKeepsOwners(s: State, i: nat, val: int)
    requires OwnersOk(s) && HoldersOk(s) && Enabled(s, ServeRelease(i, val)) && !Harmful(s, i)
    ensures OwnersOk(Do(s, ServeRelease(i, val))) && HoldersOk(Do(s, ServeRelease(i, val)))
  {
    var q := s.rpc.runs[i].req;
    ServeReleaseFrees(s, i, val);
    if Releases(s.locks, q.args[0], LidOf(q)) {
      FreedKeepsOwners(s, Do(s, ServeRelease(i, val)), LidOf(q));
    }
  }

  lemma ServeReleaseKeepsThreads(s: State, i: nat, val: int)
    requires CallsOk(s) && ThreadsOk(s) && Enabled(s, ServeRelease(i, val))
    ensures CallsOk(Do(s, ServeRelease(i, val))) && ThreadsOk(Do(s, ServeRelease(i, val)))
  {
    var s' := Do(s, ServeRelease(i, val));
    forall u | u in s'.threads
      ensures ThreadOk(s', s'.threads[u])
    {
      assert ThreadOk(s, s.threads[u]);
    }
  }

  /** A release finishes no acquire. */
  lemma ReleaseAwaits(s: State, i: nat, val: int, t: nat, lid: nat)
    requires R.RunsOk(s.rpc) && CallsOk(s) && ThreadsOk(s) && Enabled(s, ServeRelease(i, val))
    ensures Awaits(Do(s, ServeRelease(i, val)), t, lid) <==> Awaits(s, t, lid)
  {
    ServedCall(s, i);
    ServeReleaseFrees(s, i, val);
    if t in s.threads && s.threads[t].activity.Acquiring? {
      assert ThreadOk(s, s.threads[t]);
      FinishFrame(s.rpc, i, RpcAction(s, ServeRelease(i, val)).res, s.threads[t].clt, s.threads[t].activity.xid);
    }
  }

  lemma ServeReleaseKeepsGrants(s: State, i: nat, val: int)
    requires R.RunsOk(s.rpc) && CallsOk(s) && ThreadsOk(s) && GrantsOk(s)
    requires Enabled(s, ServeRelease(i, val)) && !Harmful(s, i)
    ensures GrantsOk(Do(s, ServeRelease(i, val)))
  {
    var s' := Do(s, ServeRelease(i, val));
    ServeReleaseFrees(s, i, val);
    forall t | t in s'.threads && s'.threads[t].activity.Acquiring?
            && Finished(s'.rpc.runs, s'.threads[t].clt, s'.threads[t].activity.xid)
      ensures var thr := s'.threads[t];
              thr.activity.lid in s'.owner && s'.owner[thr.activity.lid] == GrantedTo(thr.clt, thr.activity.xid)
    {
      ReleaseAwaits(s, i, val, t, s'.threads[t].activity.lid);
    }
  }

  lemma ServeReleaseKeeps(s: State, i: nat, val: int)
    requires Inv(s) && Enabled(s, ServeRelease(i, val)) && !Harmful(s, i)
    ensures LockInv(Do(s, ServeRelease(i, val)))
  {
    ServeReleaseKeepsThreads(s, i, val);
    ServeReleaseKeepsOwners(s, i, val);
    ServeReleaseKeepsGrants(s, i, val);
  }

  // ---------- Every run ----------

  lemma SpawnKeepsThreads(s: State, t: nat, clt: nat)
    requires CallsOk(s) && ThreadsOk(s) && clt in s.rpc.clients
    ensures CallsOk(WithThread(s, t, Thread(clt, {}, Idle))) && ThreadsOk(WithThread(s, t, Thread(clt, {}, Idle)))
  {
    var s' := WithThread(s, t, Thread(clt, {}, Idle));
    forall u | u in s'.threads
      ensures ThreadOk(s', s'.threads[u])
    {
      assert u != t ==> ThreadOk(s, s.threads[u]);
    }
  }

  lemma SpawnKeepsOwners(s: State, t: nat, clt: nat)
    requires OwnersOk(s) && HoldersOk(s) && t !in s.threads
    ensures OwnersOk(WithThread(s, t, Thread(clt, {}, Idle))) && HoldersOk(WithThread(s, t, Thread(clt, {}, Idle)))
  {}

  lemma SpawnKeepsGrants(s: State, t: nat, clt: nat)
    requires GrantsOk(s)
    ensures GrantsOk(WithThread(s, t, Thread(clt, {}, Idle)))
  {}

  lemma SpawnKeeps(s: State, t: nat, clt: nat)
    requires LockInv(s) && t !in s.threads && clt in s.rpc.clients
    ensures LockInv(WithThread(s, t, Thread(clt, {}, Idle)))
  {
    SpawnKeepsThreads(s, t, clt);
    SpawnKeepsOwners(s, t, clt);
    SpawnKeepsGrants(s, t, clt);
  }

  lemma RpcKeeps(s: State, b: P.Action)
    requires Inv(s) && Enabled(s, Rpc(b))
    ensures LockInv(Do(s, Rpc(b)))
  {
    QuietStep(s, b);
    QuietKeeps(s, P.Do(s.rpc, b));
  }

  lemma CallAcquireStep(s: State, t: nat, lid: nat)
    requires Inv(s) && Enabled(s, CallAcquire(t, lid))
    ensures LockInv(Do(s, CallAcquire(t, lid)))
  {
    CallAcquireCalls(s, t, lid);
    CallAcquireKeeps(s, Do(s, CallAcquire(t, lid)), t, s.rpc.clients[s.threads[t].clt].next, lid);
  }

  lemma CallReleaseStep(s: State, t: nat, lid: nat)
    requires Inv(s) && Enabled(s, CallRelease(t, lid))
    ensures LockInv(Do(s, CallRelease(t, lid)))
  {
    CallReleaseCalls(s, t, lid);
    CallReleaseKeeps(s, Do(s, CallRelease(t, lid)), t, s.rpc.clients[s.threads[t].clt].next, lid);
  }

  lemma LeaveStep(s: State, t: nat)
    requires Inv(s) && Enabled(s, Leave(t))
    ensures LockInv(Do(s, Leave(t)))
  {
    LeaveLeaves(s, t);
    LeaveKeeps(s, Do(s, Leave(t)), t, ReturnValue(s, t));
  }

  ghost predicate IsHarmful(s: State, a: Action) {
    a.ServeRelease? && Harmful(s, a.i)
  }

  lemma StepKeepsLocks(s: State, a: Action)
    requires Inv(s) && Enabled(s, a) && !IsHarmful(s, a)
    ensures LockInv(Do(s, a))
  {
    match a
    case Rpc(b) => RpcKeeps(s, b);
    case Spawn(t, clt) => SpawnKeeps(s, t, clt);
    case CallAcquire(t, lid) => CallAcquireStep(s, t, lid);
    case CallRelease(t, lid) => CallReleaseStep(s, t, lid);
    case Leave(t) => LeaveStep(s, t);
    case ServeAcquire(i, val) => ServeAcquireKeeps(s, i, val);
    case ServeRelease(i, val) => ServeReleaseKeeps(s, i, val);
  }

  /** The composed action is a step of the protocol, or leaves it alone. */
  lemma Projects(s: State, a: Action)
    requires Enabled(s, a)
    ensures Do(s, a).rpc == if HasRpcAction(s, a) then P.Do(s.rpc, RpcAction(s, a)) else s.rpc
  {}

  lemma StepKeepsRpc(s: State, a: Action)
    requires R.Inv(s.rpc) && Enabled(s, a)
    ensures R.Inv(Do(s, a).rpc)
  {
    Projects(s, a);
    if HasRpcAction(s, a) {
      R.StepKeeps(s.rpc, RpcAction(s, a));
    }
  }

  lemma {:induction false} RpcSafe(acts: seq<Action>)
    requires Legal(acts)
    ensures R.Inv(After(acts).rpc)
  {
    if acts != [] {
      RpcSafe(acts[..|acts| - 1]);
      StepKeepsRpc(After(acts[..|acts| - 1]), acts[|acts| - 1]);
    }
  }

  /** No step of the run frees a lock that a thread holds or was granted. */
  ghost predicate Harmless(acts: seq<Action>)
    requires Legal(acts)
  {
    acts == [] ||
    (Harmless(acts[..|acts| - 1]) && !IsHarmful(After(acts[..|acts| - 1]), acts[|acts| - 1]))
  }

  lemma {:induction false} Safe(acts: seq<Action>)
    requires Legal(acts) && Harmless(acts)
    ensures Inv(After(acts))
  {
    RpcSafe(acts);
    if acts != [] {
      Safe(acts[..|acts| - 1]);
      StepKeepsLocks(After(acts[..|acts| - 1]), acts[|acts| - 1]);
    }
  }

  // ---------- Exclusion, exactly ----------

  /** Mutual exclusion as the clients see it: no two threads of any clients are both
      between a successful acquire and the matching release of one lock, and the server
      has the lock LOCKED by the holder's client. */
  ghost predicate Exclusive(s: State) {
    && (forall t, u, lid :: Holds(s, t, lid) && Holds(s, u, lid) ==> t == u)
    && (forall t, lid :: Holds(s, t, lid) ==> Lookup(s.locks, lid) == Handle(LOCKED, s.threads[t].clt))
  }

  /** A lock that was granted stays LOCKED until the acquire has returned. */
  ghost predicate GrantsStand(s: State) {
    forall t, lid :: Awaits(s, t, lid) ==> Lookup(s.locks, lid) == Handle(LOCKED, s.threads[t].clt)
  }

  ghost predicate Sound(s: State) {
    Exclusive(s) && GrantsStand(s)
  }

  lemma HolderIsOwner(s: State, t: nat, u: nat, lid: nat)
    requires OwnersOk(s) && HoldersOk(s) && Holds(s, t, lid)
    ensures Holds(s, u, lid) ==> t == u
    ensures Lookup(s.locks, lid) == Handle(LOCKED, s.threads[t].clt)
  {
    assert s.owner[lid] == HeldBy(t);
  }

  lemma InvIsSound(s: State)
    requires OwnersOk(s) && HoldersOk(s) && GrantsOk(s)
    ensures Sound(s)
  {
    forall t, u, lid | Holds(s, t, lid) && Holds(s, u, lid)
      ensures t == u
    {
      HolderIsOwner(s, t, u, lid);
    }
    forall t, lid | Holds(s, t, lid)
      ensures Lookup(s.locks, lid) == Handle(LOCKED, s.threads[t].clt)
    {
      HolderIsOwner(s, t, t, lid);
    }
    forall t, lid | Awaits(s, t, lid)
      ensures Lookup(s.locks, lid) == Handle(LOCKED, s.threads[t].clt)
    {
      assert s.owner[lid] == GrantedTo(s.threads[t].clt, s.threads[t].activity.xid);
    }
  }

  /** A harmful release is not only a danger: it breaks soundness at once. */
  lemma HarmIsUnsound(s: State, i: nat, val: int)
    requires R.RunsOk(s.rpc) && CallsOk(s) && ThreadsOk(s)
    requires Enabled(s, ServeRelease(i, val)) && Harmful(s, i)
    ensures !Sound(Do(s, ServeRelease(i, val)))
  {
    var s', lid := Do(s, ServeRelease(i, val)), LidOf(s.rpc.runs[i].req);
    ServeReleaseFrees(s, i, val);
    var t :| Holds(s, t, lid) || Awaits(s, t, lid);
    ReleaseAwaits(s, i, val, t, lid);
    assert Holds(s', t, lid) || Awaits(s', t, lid);
    assert Lookup(s'.locks, lid).state == FREE;
  }

  ghost predicate AlwaysSound(acts: seq<Action>)
    requires Legal(acts)
  {
    Sound(After(acts)) && (acts != [] ==> AlwaysSound(acts[..|acts| - 1]))
  }

  /** Exclusion exactly: every state of a run is sound iff no release in it frees a lock
      that some thread holds or was granted. */
  lemma {:induction false} SoundExactly(acts: seq<Action>)
    requires Legal(acts)
    ensures AlwaysSound(acts) <==> Harmless(acts)
  {
    if Harmless(acts) {
      Safe(acts);
      InvIsSound(After(acts));
    }
    if acts != [] {
      var before, a := acts[..|acts| - 1], acts[|acts| - 1];
      SoundExactly(before);
      if Harmless(before) && IsHarmful(After(before), a) {
        Safe(before);
        HarmIsUnsound(After(before), a.i, a.val);
      }
    }
  }

  // ---------- It is enough that no release is executed twice ----------

  /** Runs i and j execute the same release. */
  ghost predicate SameRelease(runs: seq<P.Run>, i: int, j: int) {
    && 0 <= i < |runs| && 0 <= j < |runs|
    && runs[i].req.proc == RELEASE && R.Executes(runs[j], runs[i].req.clt, runs[i].req.xid)
  }

  /** No release is executed twice. */
  ghost predicate ReleasesOnce(runs: seq<P.Run>) {
    forall i, j :: SameRelease(runs, i, j) ==> i == j
  }

  lemma FewerReleasesOnce(a: seq<P.Run>, b: seq<P.Run>)
    requires R.Extends(a, b) && ReleasesOnce(b)
    ensures ReleasesOnce(a)
  {
    forall i, j | SameRelease(a, i, j)
      ensures i == j
    {
      assert SameRelease(b, i, j);
    }
  }

  lemma RunsExtend(s: State, a: Action)
    requires Enabled(s, a)
    ensures R.Extends(s.rpc.runs, Do(s, a).rpc.runs)
  {
    Projects(s, a);
    if HasRpcAction(s, a) {
      T.StepExtends(s.rpc, RpcAction(s, a));
    }
  }

  /** The release that run i executes still stands behind its lock. */
  ghost predicate Stands(s: State, i: nat) {
    && i < |s.rpc.runs|
    && var q := s.rpc.runs[i].req;
       LidOf(q) in s.owner && s.owner[LidOf(q)] == BeingReleased(q.clt, q.xid)
  }

  /** Where no release is executed twice, a release that runs has not run before. */
  lemma ReleaseRunsOnce(s: State, i: nat)
    requires R.RunsOk(s.rpc) && CallsOk(s) && ReleasesOk(s) && ReleasesOnce(s.rpc.runs)
    requires i < |s.rpc.runs| && s.rpc.runs[i].req.proc == RELEASE && s.rpc.runs[i].phase == P.Running
    ensures Stands(s, i)
  {
    var q := s.rpc.runs[i].req;
    ServedCall(s, i);
    forall j | 0 <= j < |s.rpc.runs| && R.Executes(s.rpc.runs[j], q.clt, q.xid)
      ensures !Over(s.rpc.runs[j])
    {
      assert SameRelease(s.rpc.runs, i, j);
    }
    assert !Finished(s.rpc.runs, q.clt, q.xid);
    assert (q.clt, q.xid) in s.rpc.packed;
  }

  lemma StandingIsHarmless(s: State, i: nat)
    requires HoldersOk(s) && GrantsOk(s) && Stands(s, i)
    ensures !Harmful(s, i)
  {
    var lid := LidOf(s.rpc.runs[i].req);
    forall t | Holds(s, t, lid) || Awaits(s, t, lid)
      ensures !s.owner[lid].BeingReleased?
    {
      NotBeingReleased(s, t, lid);
    }
  }

  lemma NotBeingReleased(s: State, t: nat, lid: nat)
    requires HoldersOk(s) && GrantsOk(s) && (Holds(s, t, lid) || Awaits(s, t, lid))
    ensures lid in s.owner && !s.owner[lid].BeingReleased?
  {
    if Awaits(s, t, lid) {
      AwaitedIsGranted(s, t, lid);
    }
  }

  lemma AwaitedIsGranted(s: State, t: nat, lid: nat)
    requires GrantsOk(s) && Awaits(s, t, lid)
    ensures lid in s.owner && s.owner[lid] == GrantedTo(s.threads[t].clt, s.threads[t].activity.xid)
  {}

  lemma ServeReleaseKeepsReleases(s: State, i: nat, val: int)
    requires R.RunsOk(s.rpc) && CallsOk(s) && ReleasesOk(s) && Stands(s, i) && Enabled(s, ServeRelease(i, val))
    ensures ReleasesOk(Do(s, ServeRelease(i, val)))
  {
    var s' := Do(s, ServeRelease(i, val));
    ServedCall(s, i);
    ServeReleaseFrees(s, i, val);
    forall k | k in s'.rpc.packed && s'.rpc.packed[k].proc == RELEASE && !Finished(s'.rpc.runs, k.0, k.1)
      ensures var lid := LidOf(s'.rpc.packed[k]); lid in s'.owner && s'.owner[lid] == BeingReleased(k.0, k.1)
    {
      FinishFrame(s.rpc, i, RpcAction(s, ServeRelease(i, val)).res, k.0, k.1);
    }
  }

  lemma RpcKeepsReleases(s: State, b: P.Action)
    requires R.Inv(s.rpc) && ReleasesOk(s) && Enabled(s, Rpc(b))
    ensures ReleasesOk(Do(s, Rpc(b)))
  {
    QuietStep(s, b);
    QuietKeepsReleases(s, P.Do(s.rpc, b));
  }

  lemma CallKeepsReleases(s: State, a: Action)
    requires Inv(s) && ReleasesOk(s) && Enabled(s, a) && (a.CallAcquire? || a.CallRelease?)
    ensures ReleasesOk(Do(s, a))
  {
    var x := s.rpc.clients[s.threads[a.t].clt].next;
    if a.CallAcquire? {
      CallAcquireCalls(s, a.t, a.lid);
      CallAcquireKeepsReleases(s, Do(s, a), a.t, x, a.lid);
    } else {
      CallReleaseCalls(s, a.t, a.lid);
      CallReleaseKeepsReleases(s, Do(s, a), a.t, x, a.lid);
    }
  }

  lemma LeaveStepKeepsReleases(s: State, t: nat)
    requires Inv(s) && ReleasesOk(s) && Enabled(s, Leave(t))
    ensures ReleasesOk(Do(s, Leave(t)))
  {
    LeaveLeaves(s, t);
    LeaveKeepsReleases(s, Do(s, Leave(t)), t, ReturnValue(s, t));
  }

  lemma StepKeepsReleases(s: State, a: Action)
    requires Inv(s) && ReleasesOk(s) && Enabled(s, a) && (a.ServeRelease? ==> Stands(s, a.i))
    ensures ReleasesOk(Do(s, a))
  {
    match a
    case Rpc(b) => RpcKeepsReleases(s, b);
    case Spawn(t, clt) =>
    case CallAcquire(t, lid) => CallKeepsReleases(s, a);
    case CallRelease(t, lid) => CallKeepsReleases(s, a);
    case Leave(t) => LeaveStepKeepsReleases(s, t);
    case ServeAcquire(i, val) => ServeAcquireKeepsReleases(s, i, val);
    case ServeRelease(i, val) => ServeReleaseKeepsReleases(s, i, val);
  }

  lemma {:induction false} ReleasesOnceIsHarmless(acts: seq<Action>)
    requires Legal(acts) && ReleasesOnce(After(acts).rpc.runs)
    ensures Harmless(acts) && ReleasesOk(After(acts))
  {
    if acts != [] {
      var before, a := acts[..|acts| - 1], acts[|acts| - 1];
      var s := After(before);
      RunsExtend(s, a);
      FewerReleasesOnce(s.rpc.runs, Do(s, a).rpc.runs);
      ReleasesOnceIsHarmless(before);
      Safe(before);
      if a.ServeRelease? {
        ReleaseRunsOnce(s, a.i);
        StandingIsHarmless(s, a.i);
      }
      StepKeepsReleases(s, a);
    }
  }

  /** No release was accepted after a header with a larger acknowledgement. */
  ghost predicate NoLateRelease(r: P.State) {
    forall n, c, x :: (c, x) in r.packed && r.packed[(c, x)].proc == RELEASE ==> (n, c, x) !in r.late
  }

  /** And for that, that no release is accepted late. */
  lemma TimelyReleasesRunOnce(acts: seq<Action>)
    requires Legal(acts) && NoLateRelease(After(acts).rpc)
    ensures ReleasesOnce(After(acts).rpc.runs)
  {
    RpcSafe(acts);
    var r := After(acts).rpc;
    forall i, j | SameRelease(r.runs, i, j)
      ensures i == j
    {
      OnlyRun(r, i, j);
    }
  }

  lemma OnlyRun(r: P.State, i: nat, j: nat)
    requires R.Inv(r) && NoLateRelease(r) && i < |r.runs| && j < |r.runs|
    requires r.runs[i].req.proc == RELEASE && R.Executes(r.runs[j], r.runs[i].req.clt, r.runs[i].req.xid)
    ensures i == j
  {
    var c, x := r.runs[i].req.clt, r.runs[i].req.xid;
    assert R.RunOk(r, r.runs[i]);
    T.OneInstance(r, c, x, i);
    T.OneInstance(r, c, x, j);
    if i != j {
      T.RepeatIsLate(r, c, x, i, j);
    }
  }

  /** Mutual exclusion in every state of a run in which no release is executed twice. */
  lemma MutualExclusion(acts: seq<Action>)
    requires Legal(acts) && ReleasesOnce(After(acts).rpc.runs)
    ensures AlwaysSound(acts)
  {
    ReleasesOnceIsHarmless(acts);
    SoundExactly(acts);
  }
}
