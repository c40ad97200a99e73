/** Safety of the RPC protocol over every run. */
module RpcSafety {
  import opened RpcTypes
  import opened XidWindow
  import opened ReplySpec
  import opened RpcProtocol
  import C = ClientSpec

  // ---------- Executions ----------

  /** Run i executes request x of client c. */
  ghost predicate Executes(r: Run, c: nat, x: nat) {
    r.req.clt == c && r.req.xid == x
  }

  ghost predicate HasResult(r: Run, res: Result) {
    (r.phase.Returned? || r.phase.Saved?) && r.phase.res == res
  }

  ghost predicate HasRun(runs: seq<Run>, n: nat, c: nat, x: nat) {
    exists i :: 0 <= i < |runs| && runs[i].inst == n && Executes(runs[i], c, x)
  }

  ghost predicate HasSaved(runs: seq<Run>, n: nat, c: nat, x: nat, res: Result) {
    exists i :: 0 <= i < |runs| && runs[i].inst == n && Executes(runs[i], c, x) && runs[i].phase == Saved(res)
  }

  ghost predicate Ran(runs: seq<Run>, c: nat, x: nat, res: Result) {
    exists i :: 0 <= i < |runs| && Executes(runs[i], c, x) && HasResult(runs[i], res)
  }

  /** Runs are only added, and never lose the result they have. */
  ghost predicate Extends(a: seq<Run>, b: seq<Run>) {
    && |a| <= |b|
    && forall i :: 0 <= i < |a| ==>
         && b[i].inst == a[i].inst && b[i].req == a[i].req
         && (a[i].phase.Returned? ==> HasResult(b[i], a[i].phase.res))
         && (a[i].phase.Saved? ==> b[i].phase == a[i].phase)
  }

  lemma ExtendsKeeps(a: seq<Run>, b: seq<Run>)
    requires Extends(a, b)
    ensures forall n, c, x :: HasRun(a, n, c, x) ==> HasRun(b, n, c, x)
    ensures forall n, c, x, res :: HasSaved(a, n, c, x, res) ==> HasSaved(b, n, c, x, res)
    ensures forall c, x, res :: Ran(a, c, x, res) ==> Ran(b, c, x, res)
  {
    forall n, c, x | HasRun(a, n, c, x)
      ensures HasRun(b, n, c, x)
    {
      var i :| 0 <= i < |a| && a[i].inst == n && Executes(a[i], c, x);
      assert Executes(b[i], c, x);
    }
    forall n, c, x, res | HasSaved(a, n, c, x, res)
      ensures HasSaved(b, n, c, x, res)
    {
      var i :| 0 <= i < |a| && a[i].inst == n && Executes(a[i], c, x) && a[i].phase == Saved(res);
      assert Executes(b[i], c, x);
    }
    forall c, x, res | Ran(a, c, x, res)
      ensures Ran(b, c, x, res)
    {
      var i :| 0 <= i < |a| && Executes(a[i], c, x) && HasResult(a[i], res);
      assert Executes(b[i], c, x) && HasResult(b[i], res);
    }
  }

  // ---------- The invariant ----------

  ghost predicate PackedOk(s: State) {
    forall k :: k in s.packed ==>
      var q := s.packed[k];
      && q.clt == k.0 && q.xid == k.1 && k.0 in s.clients
      && 1 <= q.xid < s.clients[k.0].next
      && q.rep < q.xid && q.rep <= Front(s.clients[k.0].completed)
      && (q.proc == BIND <==> q.srv == 0)
  }

  ghost predicate ClientOk(s: State, c: nat, cl: C.Client) {
    && c != 0 && cl.nonce == c && 1 <= cl.next
    && (cl.bound <==> cl.srv != 0)
    && (forall x :: x in cl.completed ==> 1 <= x < cl.next)
    && (forall x :: x in cl.calls ==> (c, x) in s.packed)
    && (forall x :: x in cl.calls && cl.calls[x].Waiting? ==> x !in cl.completed)
    && (forall x :: x in cl.calls && cl.calls[x].Answered? ==> Reply(c, x, cl.calls[x].res) in s.reps)
  }

  ghost predicate ClientsOk(s: State) {
    && (forall c :: c in s.clients ==> ClientOk(s, c, s.clients[c]))
    && (forall k :: k in s.binds ==> k.0 in s.clients && s.binds[k] != 0)
  }

  ghost predicate RequestsOk(s: State) {
    forall q :: q in s.reqs ==> (q.clt, q.xid) in s.packed && s.packed[(q.clt, q.xid)] == q
  }

  ghost predicate RunOk(s: State, r: Run) {
    && (r.req.clt, r.req.xid) in s.packed && s.packed[(r.req.clt, r.req.xid)] == r.req
    && r.inst != 0 && r.inst in s.used
    && (r.req.srv == 0 || r.req.srv == r.inst)
    && (r.phase.Returned? || r.phase.Saved? ==> HandlerResult(r, r.phase.res))
  }

  ghost predicate RunsOk(s: State) {
    forall i :: 0 <= i < |s.runs| ==> RunOk(s, s.runs[i])
  }

  /** An execution that no accepted header has acknowledged still has its entry. */
  ghost predicate EntriesKept(s: State) {
    forall i :: 0 <= i < |s.runs| && s.runs[i].inst == s.inst ==>
      var q := s.runs[i].req;
      Acked(s, q.clt) <= q.xid ==> q.xid in For(s.window, q.clt)
  }

  ghost predicate EntriesEarned(s: State) {
    forall c, x :: x in For(s.window, c) ==>
      && HasRun(s.runs, s.inst, c, x)
      && (For(s.window, c)[x].Stored? ==> HasSaved(s.runs, s.inst, c, x, For(s.window, c)[x].reply))
  }

  ghost predicate AckedOk(s: State) {
    forall c :: c in s.acked ==> c in s.clients && s.acked[c] <= Front(s.clients[c].completed)
  }

  ghost predicate LateBelowFront(s: State) {
    forall n, c, x :: (n, c, x) in s.late ==> c in s.clients && x < Front(s.clients[c].completed)
  }

  /** Two executions of one request in one instance: the second was accepted late. */
  ghost predicate RepeatsAreLate(s: State) {
    forall i, j :: 0 <= i < j < |s.runs| && s.runs[i].inst == s.runs[j].inst ==>
      var q := s.runs[j].req;
      Executes(s.runs[i], q.clt, q.xid) ==> (s.runs[j].inst, q.clt, q.xid) in s.late
  }

  ghost predicate RepliesOk(s: State) {
    forall p :: p in s.reps ==>
      && (p.clt, p.xid) in s.packed
      && (p.res.ret >= 0 ==> Ran(s.runs, p.clt, p.xid, p.res))
  }

  ghost predicate ClientPart(s: State) {
    PackedOk(s) && ClientsOk(s) && RequestsOk(s)
  }

  ghost predicate ServerPart(s: State) {
    && s.inst in s.used + {0} && 0 !in s.used && RunsOk(s)
    && EntriesKept(s) && EntriesEarned(s) && AckedOk(s)
    && LateBelowFront(s) && RepeatsAreLate(s) && RepliesOk(s)
  }

  ghost predicate Inv(s: State) {
    ClientPart(s) && ServerPart(s)
  }

  // ---------- Client actions ----------

  /** cl may replace the state of client c: its xids and completions only grow. */
  ghost predicate Succeeds(s: State, c: nat, cl: C.Client) {
    && ClientOk(s, c, cl)
    && (c in s.clients ==>
         && s.clients[c].next <= cl.next
         && s.clients[c].completed <= cl.completed
         && Front(s.clients[c].completed) <= Front(cl.completed))
  }

  lemma FrontsGrow(cl: C.Client, cl': C.Client)
    requires cl.completed <= cl'.completed
    ensures Front(cl.completed) <= Front(cl'.completed)
  {
    FrontIsMonotone(cl.completed, cl'.completed, Front(cl.completed), Front(cl'.completed));
  }

  lemma ClientUpdateKeepsPacked(s: State, c: nat, cl: C.Client)
    requires PackedOk(s) && Succeeds(s, c, cl)
    ensures PackedOk(WithClient(s, c, cl))
  {}

  lemma ClientUpdateKeepsClients(s: State, c: nat, cl: C.Client)
    requires ClientsOk(s) && Succeeds(s, c, cl)
    ensures ClientsOk(WithClient(s, c, cl))
  {
    var s' := WithClient(s, c, cl);
    forall d | d in s'.clients
      ensures ClientOk(s', d, s'.clients[d])
    {
      assert ClientOk(s, d, s'.clients[d]);
    }
  }

  lemma ClientUpdateKeepsFronts(s: State, c: nat, cl: C.Client)
    requires AckedOk(s) && LateBelowFront(s) && Succeeds(s, c, cl)
    ensures AckedOk(WithClient(s, c, cl)) && LateBelowFront(WithClient(s, c, cl))
  {}

  /** The rest of the server's invariant does not look at the clients. */
  ghost predicate ServerCore(s: State) {
    && s.inst in s.used + {0} && 0 !in s.used && RunsOk(s)
    && EntriesKept(s) && EntriesEarned(s) && RepeatsAreLate(s) && RepliesOk(s)
  }

  lemma ClientUpdateKeepsCore(s: State, c: nat, cl: C.Client)
    requires ServerCore(s)
    ensures ServerCore(WithClient(s, c, cl))
  {
    var s' := WithClient(s, c, cl);
    assert RunsOk(s') by {
      forall i | 0 <= i < |s'.runs|
        ensures RunOk(s', s'.runs[i])
      {
        assert RunOk(s, s.runs[i]);
      }
    }
  }

  lemma ClientUpdateKeeps(s: State, c: nat, cl: C.Client)
    requires Inv(s) && Succeeds(s, c, cl)
    ensures Inv(WithClient(s, c, cl))
  {
    ClientUpdateKeepsPacked(s, c, cl);
    ClientUpdateKeepsClients(s, c, cl);
    ClientUpdateKeepsFronts(s, c, cl);
    ClientUpdateKeepsCore(s, c, cl);
  }

  lemma ConnectKeeps(s: State, c: nat)
    requires Inv(s) && Enabled(s, Connect(c))
    ensures Inv(Do(s, Connect(c)))
  {
    ClientUpdateKeeps(s, c, C.Fresh(c));
  }

  lemma CallSucceeds(s: State, c: nat)
    requires ClientsOk(s) && c in s.clients
    ensures var cl := s.clients[c];
            Front(cl.completed) < cl.next && cl.next !in cl.completed
  {
    var cl := s.clients[c];
    assert ClientOk(s, c, cl);
    assert Front(cl.completed) == 0 || Front(cl.completed) in cl.completed;
  }

  /** The header is packed with an acknowledgement below its own xid. */
  lemma CallKeepsPacked(s: State, c: nat, proc: nat, args: seq<int>)
    requires PackedOk(s) && ClientsOk(s) && Enabled(s, Call(c, proc, args))
    ensures PackedOk(Do(s, Call(c, proc, args)))
  {
    CallSucceeds(s, c);
    assert ClientOk(s, c, s.clients[c]);
  }

  lemma CallIsFresh(s: State, c: nat)
    requires PackedOk(s) && c in s.clients
    ensures (c, s.clients[c].next) !in s.packed
  {}

  lemma CallKeepsClients(s: State, c: nat, proc: nat, args: seq<int>)
    requires ClientsOk(s) && RequestsOk(s) && Enabled(s, Call(c, proc, args))
    requires (c, s.clients[c].next) !in s.packed
    ensures ClientsOk(Do(s, Call(c, proc, args))) && RequestsOk(Do(s, Call(c, proc, args)))
  {
    CallSucceeds(s, c);
    var s' := Do(s, Call(c, proc, args));
    forall d | d in s'.clients
      ensures ClientOk(s', d, s'.clients[d])
    {
      assert ClientOk(s, d, s.clients[d]);
    }
  }

  lemma CallKeepsCore(s: State, c: nat, proc: nat, args: seq<int>)
    requires ServerCore(s) && Enabled(s, Call(c, proc, args))
    requires (c, s.clients[c].next) !in s.packed
    ensures ServerCore(Do(s, Call(c, proc, args)))
  {
    var s' := Do(s, Call(c, proc, args));
    forall i | 0 <= i < |s'.runs|
      ensures RunOk(s', s'.runs[i])
    {
      assert RunOk(s, s.runs[i]);
    }
  }

  lemma CallKeepsFronts(s: State, c: nat, proc: nat, args: seq<int>)
    requires AckedOk(s) && LateBelowFront(s) && Enabled(s, Call(c, proc, args))
    ensures AckedOk(Do(s, Call(c, proc, args))) && LateBelowFront(Do(s, Call(c, proc, args)))
  {}

  lemma CallKeeps(s: State, c: nat, proc: nat, args: seq<int>)
    requires Inv(s) && Enabled(s, Call(c, proc, args))
    ensures Inv(Do(s, Call(c, proc, args)))
  {
    CallIsFresh(s, c);
    CallKeepsPacked(s, c, proc, args);
    CallKeepsClients(s, c, proc, args);
    CallKeepsCore(s, c, proc, args);
    CallKeepsFronts(s, c, proc, args);
  }

  lemma TransmitKeeps(s: State, c: nat, x: nat)
    requires Inv(s) && Enabled(s, Transmit(c, x))
    ensures Inv(Do(s, Transmit(c, x)))
  {
    assert (c, x) in s.packed && s.packed[(c, x)].clt == c && s.packed[(c, x)].xid == x;
    SentKeeps(s, s.packed[(c, x)]);
  }

  lemma SentKeeps(s: State, q: Request)
    requires Inv(s) && (q.clt, q.xid) in s.packed && s.packed[(q.clt, q.xid)] == q
    ensures Inv(s.(reqs := s.reqs + {q}))
  {
    SentKeepsClientPart(s, q);
    SentKeepsServerPart(s, q);
  }

  lemma SentKeepsClientPart(s: State, q: Request)
    requires ClientPart(s) && (q.clt, q.xid) in s.packed && s.packed[(q.clt, q.xid)] == q
    ensures ClientPart(s.(reqs := s.reqs + {q}))
  {
    assert ClientsOk(s.(reqs := s.reqs + {q}));
  }

  lemma SentKeepsServerPart(s: State, q: Request)
    requires ServerPart(s)
    ensures ServerPart(s.(reqs := s.reqs + {q}))
  {
    assert RunsOk(s.(reqs := s.reqs + {q}));
  }

  lemma GotReplyKeeps(s: State, p: Reply)
    requires Inv(s) && Enabled(s, GotReply(p))
    ensures Inv(Do(s, GotReply(p)))
  {
    ReceiveSucceeds(s, p);
    ClientUpdateKeeps(s, p.clt, C.Receive(s.clients[p.clt], p.xid, p.res));
  }

  lemma ReceiveSucceeds(s: State, p: Reply)
    requires PackedOk(s) && ClientsOk(s) && RepliesOk(s) && p in s.reps && p.clt in s.clients
    ensures Succeeds(s, p.clt, C.Receive(s.clients[p.clt], p.xid, p.res))
  {
    var cl := s.clients[p.clt];
    assert ClientOk(s, p.clt, cl);
    assert (p.clt, p.xid) in s.packed;
    assert Reply(p.clt, p.xid, p.res) == p;
    FrontsGrow(cl, C.Receive(cl, p.xid, p.res));
  }

  lemma BindsKeep(s: State, binds: map<(nat, nat), nat>)
    requires Inv(s) && forall k :: k in binds ==> k.0 in s.clients && binds[k] != 0
    ensures Inv(s.(binds := binds))
  {
    var s' := s.(binds := binds);
    assert ClientsOk(s') && RunsOk(s');
  }

  /** A bind that returned 0 brings the nonzero nonce of some instance. */
  lemma BindResult(s: State, c: nat, x: nat, res: Result)
    requires PackedOk(s) && RunsOk(s) && Ran(s.runs, c, x, res) && res.ret >= 0
    requires (c, x) in s.packed && s.packed[(c, x)].proc == BIND
    ensures res.ret == 0 && res.val > 0 && res.val in s.used
  {
    var i :| 0 <= i < |s.runs| && Executes(s.runs[i], c, x) && HasResult(s.runs[i], res);
    assert RunOk(s, s.runs[i]);
  }

  lemma ReturnSucceeds(s: State, c: nat, x: nat)
    requires PackedOk(s) && ClientsOk(s) && RepliesOk(s) && Enabled(s, Return(c, x))
    ensures Succeeds(s, c, C.Finish(s.clients[c], x))
    ensures var caller := s.clients[c].calls[x];
            caller.Answered? && caller.res.ret >= 0 ==> Ran(s.runs, c, x, caller.res)
  {
    var cl := s.clients[c];
    assert ClientOk(s, c, cl);
    assert cl.calls[x].Answered? ==> Reply(c, x, cl.calls[x].res) in s.reps;
    FrontsGrow(cl, C.Finish(cl, x));
  }

  lemma ReturnKeeps(s: State, c: nat, x: nat)
    requires Inv(s) && Enabled(s, Return(c, x))
    ensures Inv(Do(s, Return(c, x)))
  {
    var s1 := WithClient(s, c, C.Finish(s.clients[c], x));
    ReturnSucceeds(s, c, x);
    ClientUpdateKeeps(s, c, C.Finish(s.clients[c], x));
    if Returns(s, c, x) != s1 {
      BindAnswer(s, c, x);
      ReturnKeepsBinds(s1, c, x, s.clients[c].calls[x].res.val);
    }
  }

  lemma BindAnswer(s: State, c: nat, x: nat)
    requires PackedOk(s) && RunsOk(s) && ClientsOk(s) && RepliesOk(s) && Enabled(s, Return(c, x))
    requires s.packed[(c, x)].proc == BIND
    requires s.clients[c].calls[x].Answered? && s.clients[c].calls[x].res.ret == 0
    ensures s.clients[c].calls[x].res.val > 0
  {
    assert ClientOk(s, c, s.clients[c]);
    BindResult(s, c, x, s.clients[c].calls[x].res);
  }

  lemma ReturnKeepsBinds(s: State, c: nat, x: nat, n: nat)
    requires Inv(s) && c in s.clients && n != 0
    ensures Inv(s.(binds := s.binds[(c, x) := n]))
  {
    BindsKeep(s, s.binds[(c, x) := n]);
  }

  lemma StoreBindKeeps(s: State, c: nat, x: nat)
    requires Inv(s) && Enabled(s, StoreBind(c, x))
    ensures Inv(Do(s, StoreBind(c, x)))
  {
    var cl' := C.Bind(s.clients[c], s.binds[(c, x)]);
    assert ClientOk(s, c, s.clients[c]);
    ClientUpdateKeeps(s, c, cl');
    BindsKeep(WithClient(s, c, cl'), s.binds - {(c, x)});
  }

  // ---------- Server actions ----------

  ghost predicate ServerStep(s: State, s': State) {
    && s'.clients == s.clients && s'.packed == s.packed && s'.binds == s.binds && s'.reqs == s.reqs
    && s.reps <= s'.reps
  }

  lemma ServerStepKeepsClientPart(s: State, s': State)
    requires ClientPart(s) && ServerStep(s, s')
    ensures ClientPart(s')
  {
    forall c | c in s'.clients
      ensures ClientOk(s', c, s'.clients[c])
    {
      assert ClientOk(s, c, s.clients[c]);
    }
  }

  lemma BootKeeps(s: State, n: nat)
    requires Inv(s) && Enabled(s, Boot(n))
    ensures Inv(Do(s, Boot(n)))
  {
    var s' := Do(s, Boot(n));
    ServerStepKeepsClientPart(s, s');
    forall i | 0 <= i < |s'.runs|
      ensures RunOk(s', s'.runs[i]) && s'.runs[i].inst != n
    {
      assert RunOk(s, s.runs[i]);
    }
  }

  lemma AdvanceExtends(s: State, i: nat, phase: Phase)
    requires i < |s.runs|
    requires s.runs[i].phase.Returned? ==> phase == Saved(s.runs[i].phase.res)
    requires !s.runs[i].phase.Saved?
    ensures Extends(s.runs, Advance(s, i, phase).runs)
  {}

  lemma AdvanceKeepsRuns(s: State, i: nat, phase: Phase)
    requires RunsOk(s) && i < |s.runs|
    requires phase.Returned? || phase.Saved? ==> HandlerResult(s.runs[i], phase.res)
    ensures RunsOk(Advance(s, i, phase))
  {
    var s' := Advance(s, i, phase);
    forall j | 0 <= j < |s'.runs|
      ensures RunOk(s', s'.runs[j])
    {
      assert RunOk(s, s.runs[j]);
    }
  }

  lemma AdvanceKeepsEntries(s: State, i: nat, phase: Phase)
    requires EntriesKept(s) && RepeatsAreLate(s) && i < |s.runs|
    ensures EntriesKept(Advance(s, i, phase)) && RepeatsAreLate(Advance(s, i, phase))
  {}

  lemma ExtendKeepsResults(s: State, runs: seq<Run>)
    requires EntriesEarned(s) && RepliesOk(s) && Extends(s.runs, runs)
    ensures EntriesEarned(s.(runs := runs)) && RepliesOk(s.(runs := runs))
  {
    ExtendsKeeps(s.runs, runs);
  }

  /** A dispatch thread moves on: starts its handler, leaves it, or saves its reply. */
  lemma AdvanceKeeps(s: State, i: nat, phase: Phase)
    requires Inv(s) && CanRun(s, i)
    requires s.runs[i].phase.Returned? ==> phase == Saved(s.runs[i].phase.res)
    requires !s.runs[i].phase.Saved?
    requires phase.Returned? || phase.Saved? ==> HandlerResult(s.runs[i], phase.res)
    ensures Inv(Advance(s, i, phase))
  {
    var s' := Advance(s, i, phase);
    ServerStepKeepsClientPart(s, s');
    AdvanceExtends(s, i, phase);
    AdvanceKeepsRuns(s, i, phase);
    AdvanceKeepsEntries(s, i, phase);
    ExtendKeepsResults(s, s'.runs);
  }

  /** Recording a reply changes no key of the window. */
  lemma RecordKeeps(s: State, c: nat, x: nat, res: Result)
    requires EntriesKept(s) && EntriesEarned(s) && HasSaved(s.runs, s.inst, c, x, res)
    ensures var s' := s.(window := s.window[c := Record(For(s.window, c), x, res)]);
            EntriesKept(s') && EntriesEarned(s')
  {
    var s' := s.(window := s.window[c := Record(For(s.window, c), x, res)]);
    forall d
      ensures For(s'.window, d).Keys == For(s.window, d).Keys
    {}
  }

  lemma WindowKeeps(s: State, w: map<nat, Entries<Result>>)
    requires Inv(s) && EntriesKept(s.(window := w)) && EntriesEarned(s.(window := w))
    ensures Inv(s.(window := w))
  {
    var s' := s.(window := w);
    ServerStepKeepsClientPart(s, s');
    forall i | 0 <= i < |s'.runs|
      ensures RunOk(s', s'.runs[i])
    {
      assert RunOk(s, s.runs[i]);
    }
  }

  lemma SaveKeeps(s: State, i: nat)
    requires Inv(s) && Enabled(s, Save(i))
    ensures Inv(Do(s, Save(i)))
  {
    var q, res := s.runs[i].req, s.runs[i].phase.res;
    var s1 := Advance(s, i, Saved(res));
    assert RunOk(s, s.runs[i]);
    AdvanceKeeps(s, i, Saved(res));
    assert HasSaved(s1.runs, s1.inst, q.clt, q.xid, res) by {
      assert Executes(s1.runs[i], q.clt, q.xid);
    }
    RecordKeeps(s1, q.clt, q.xid, res);
    WindowKeeps(s1, Do(s, Save(i)).window);
  }

  lemma SendKeeps(s: State, i: nat)
    requires Inv(s) && Enabled(s, Send(i))
    ensures Inv(Do(s, Send(i)))
  {
    var r := s.runs[i];
    assert RunOk(s, r);
    assert Ran(s.runs, r.req.clt, r.req.xid, r.phase.res) by {
      assert Executes(r, r.req.clt, r.req.xid) && HasResult(r, r.phase.res);
    }
    ReplyKeeps(s, Reply(r.req.clt, r.req.xid, r.phase.res));
  }

  lemma ReplyKeeps(s: State, p: Reply)
    requires Inv(s)
    requires (p.clt, p.xid) in s.packed
    requires p.res.ret >= 0 ==> Ran(s.runs, p.clt, p.xid, p.res)
    ensures Inv(s.(reps := s.reps + {p}))
  {
    ServerStepKeepsClientPart(s, s.(reps := s.reps + {p}));
    ReplyKeepsServerPart(s, p);
  }

  lemma ReplyKeepsServerPart(s: State, p: Reply)
    requires ServerPart(s)
    requires (p.clt, p.xid) in s.packed
    requires p.res.ret >= 0 ==> Ran(s.runs, p.clt, p.xid, p.res)
    ensures ServerPart(s.(reps := s.reps + {p}))
  {
    assert RunsOk(s.(reps := s.reps + {p}));
  }

  /** An accepted header acknowledges no more than its client has completed. */
  lemma AdmitKeepsAcked(s: State, q: Request)
    requires PackedOk(s) && RequestsOk(s) && AckedOk(s) && LateBelowFront(s) && q in s.reqs
    ensures AckedOk(Admitted(s, q)) && LateBelowFront(Admitted(s, q))
  {
    assert s.packed[(q.clt, q.xid)] == q;
  }

  /** Pruning drops only what the header acknowledges. */
  lemma AdmitKeepsKept(s: State, q: Request)
    requires EntriesKept(s)
    ensures EntriesKept(Admitted(s, q))
  {}

  lemma AdmitKeepsEarned(s: State, q: Request)
    requires EntriesEarned(s)
    requires q.xid in For(s.window, q.clt) || q.xid <= q.rep
    ensures EntriesEarned(Admitted(s, q))
  {}

  lemma AdmitKeepsRest(s: State, q: Request)
    requires RunsOk(s) && RepeatsAreLate(s) && RepliesOk(s)
    ensures RunsOk(Admitted(s, q)) && RepeatsAreLate(Admitted(s, q)) && RepliesOk(Admitted(s, q))
  {
    var s' := Admitted(s, q);
    forall i | 0 <= i < |s'.runs|
      ensures RunOk(s', s'.runs[i])
    {
      assert RunOk(s, s.runs[i]);
    }
  }

  lemma DuplicateKeeps(s: State, q: Request)
    requires Inv(s) && q in s.reqs
    requires q.xid in For(s.window, q.clt) || q.xid <= q.rep
    ensures Inv(Admitted(s, q))
  {
    ServerStepKeepsClientPart(s, Admitted(s, q));
    AdmitKeepsAcked(s, q);
    AdmitKeepsKept(s, q);
    AdmitKeepsEarned(s, q);
    AdmitKeepsRest(s, q);
  }

  ghost function NewState(s: State, q: Request): State {
    Admitted(s, q).(runs := s.runs + [Run(s.inst, q, Accepted)])
  }

  lemma NewKeepsRuns(s: State, q: Request)
    requires RunsOk(s) && RequestsOk(s) && q in s.reqs && s.inst != 0 && s.inst in s.used
    requires q.srv == 0 || q.srv == s.inst
    ensures RunsOk(NewState(s, q))
  {
    var s' := NewState(s, q);
    forall i | 0 <= i < |s'.runs|
      ensures RunOk(s', s'.runs[i])
    {
      if i < |s.runs| {
        assert RunOk(s, s.runs[i]);
      }
    }
  }

  lemma NewKeepsKept(s: State, q: Request)
    requires EntriesKept(s) && q.rep < q.xid
    ensures EntriesKept(NewState(s, q))
  {
    AdmitKeepsKept(s, q);
    var s1, s' := Admitted(s, q), NewState(s, q);
    forall i | 0 <= i < |s'.runs| && s'.runs[i].inst == s'.inst
      ensures var p := s'.runs[i].req; Acked(s', p.clt) <= p.xid ==> p.xid in For(s'.window, p.clt)
    {
      if i < |s.runs| {
        assert s'.runs[i] == s1.runs[i];
      }
    }
  }

  lemma NewKeepsEarned(s: State, q: Request)
    requires EntriesEarned(s) && RepliesOk(s)
    requires q.rep < q.xid && q.xid !in For(s.window, q.clt)
    ensures EntriesEarned(NewState(s, q)) && RepliesOk(NewState(s, q))
  {
    var s' := NewState(s, q);
    ExtendsKeeps(s.runs, s'.runs);
    assert HasRun(s'.runs, s'.inst, q.clt, q.xid) by {
      assert Executes(s'.runs[|s.runs|], q.clt, q.xid);
    }
  }

  /** NEW a second time means that an acknowledgement had removed the entry. */
  lemma NewKeepsRepeats(s: State, q: Request)
    requires EntriesKept(s) && RepeatsAreLate(s)
    requires q.rep < q.xid && q.xid !in For(s.window, q.clt)
    ensures RepeatsAreLate(NewState(s, q))
  {
    var s' := NewState(s, q);
    var n := |s.runs|;
    forall i, j | 0 <= i < j < |s'.runs| && s'.runs[i].inst == s'.runs[j].inst
               && Executes(s'.runs[i], s'.runs[j].req.clt, s'.runs[j].req.xid)
      ensures (s'.runs[j].inst, s'.runs[j].req.clt, s'.runs[j].req.xid) in s'.late
    {
      if j == n {
        assert s.runs[i].req.clt == q.clt && s.runs[i].req.xid == q.xid;
      } else {
        assert Executes(s.runs[i], s.runs[j].req.clt, s.runs[j].req.xid);
      }
    }
  }

  lemma NewKeepsAcked(s: State, q: Request)
    requires PackedOk(s) && RequestsOk(s) && AckedOk(s) && LateBelowFront(s) && q in s.reqs
    ensures AckedOk(NewState(s, q)) && LateBelowFront(NewState(s, q))
  {
    AdmitKeepsAcked(s, q);
  }

  lemma NewKeepsServerPart(s: State, q: Request)
    requires PackedOk(s) && RequestsOk(s) && ServerPart(s) && q in s.reqs && s.inst != 0
    requires q.srv == 0 || q.srv == s.inst
    requires q.rep < q.xid && q.xid !in For(s.window, q.clt)
    ensures ServerPart(NewState(s, q))
  {
    NewKeepsAcked(s, q);
    NewKeepsRuns(s, q);
    NewKeepsKept(s, q);
    NewKeepsEarned(s, q);
    NewKeepsRepeats(s, q);
  }

  lemma NewKeepsClientPart(s: State, q: Request)
    requires ClientPart(s)
    ensures ClientPart(NewState(s, q))
  {
    ServerStepKeepsClientPart(s, NewState(s, q));
  }

  lemma NewKeeps(s: State, q: Request)
    requires Inv(s) && q in s.reqs && s.inst != 0
    requires q.srv == 0 || q.srv == s.inst
    requires q.rep < q.xid && q.xid !in For(s.window, q.clt)
    ensures Inv(NewState(s, q))
  {
    NewKeepsClientPart(s, q);
    NewKeepsServerPart(s, q);
  }

  lemma StoredRan(s: State, c: nat, x: nat, res: Result)
    requires EntriesEarned(s) && x in For(s.window, c) && For(s.window, c)[x] == Stored(res)
    ensures Ran(s.runs, c, x, res)
  {
    assert HasSaved(s.runs, s.inst, c, x, res);
  }

  lemma DoneKeeps(s: State, q: Request, res: Result)
    requires Inv(s) && q in s.reqs && s.inst != 0
    requires Judge(For(s.window, q.clt), q.xid, q.rep) == Done(res)
    ensures Inv(Admitted(s, q).(reps := s.reps + {Reply(q.clt, q.xid, res)}))
  {
    DuplicateKeeps(s, q);
    StoredRan(s, q.clt, q.xid, res);
    ReplyKeeps(Admitted(s, q), Reply(q.clt, q.xid, res));
  }

  lemma DeliverKeeps(s: State, q: Request)
    requires Inv(s) && q in s.reqs && s.inst != 0
    ensures Inv(Dispatch(s, q))
  {
    assert RequestsOk(s);
    if q.srv != 0 && q.srv != s.inst {
      ReplyKeeps(s, Reply(q.clt, q.xid, Result(OLDSRV_FAILURE, 0)));
    } else {
      match Judge(For(s.window, q.clt), q.xid, q.rep)
      case New => NewKeeps(s, q);
      case Busy => DuplicateKeeps(s, q);
      case Done(res) => DoneKeeps(s, q, res);
      case Forgotten => ReplyKeeps(s, Reply(q.clt, q.xid, Result(ATMOSTONCE_FAILURE, 0)));
    }
  }

  lemma StepKeeps(s: State, a: Action)
    requires Inv(s) && Enabled(s, a)
    ensures Inv(Do(s, a))
  {
    if a.Connect? || a.Call? || a.Transmit? || a.GotReply? || a.Return? || a.StoreBind? {
      ClientStepKeeps(s, a);
    } else {
      ServerStepKeeps(s, a);
    }
  }

  lemma ClientStepKeeps(s: State, a: Action)
    requires Inv(s) && Enabled(s, a)
    requires a.Connect? || a.Call? || a.Transmit? || a.GotReply? || a.Return? || a.StoreBind?
    ensures Inv(Do(s, a))
  {
    match a
    case Connect(c) => ConnectKeeps(s, c);
    case Call(c, proc, args) => CallKeeps(s, c, proc, args);
    case Transmit(c, x) => TransmitKeeps(s, c, x);
    case GotReply(p) => GotReplyKeeps(s, p);
    case Return(c, x) => ReturnKeeps(s, c, x);
    case StoreBind(c, x) => StoreBindKeeps(s, c, x);
  }

  lemma ServerStepKeeps(s: State, a: Action)
    requires Inv(s) && Enabled(s, a)
    requires a.Boot? || a.Deliver? || a.StartHandler? || a.FinishHandler? || a.Save? || a.Send?
    ensures Inv(Do(s, a))
  {
    match a
    case Boot(n) => BootKeeps(s, n);
    case Deliver(q) => DeliverKeeps(s, q);
    case StartHandler(i) => AdvanceKeeps(s, i, Running);
    case FinishHandler(i, res) => AdvanceKeeps(s, i, Returned(res));
    case Save(i) => SaveKeeps(s, i);
    case Send(i) => SendKeeps(s, i);
  }

  /** The invariant holds after every run. */
  lemma {:induction false} Safe(acts: seq<Action>)
    requires Legal(acts)
    ensures Inv(After(acts))
  {
    if acts != [] {
      Safe(acts[..|acts| - 1]);
      StepKeeps(After(acts[..|acts| - 1]), acts[|acts| - 1]);
    }
  }
}

/** What the protocol guarantees to its users, over every run. */
module RpcTheorems {
  import opened RpcTypes
  import opened XidWindow
  import opened ReplySpec
  import opened RpcProtocol
  import opened RpcSafety
  import C = ClientSpec

  /** Runs i and j both execute request x of client c. */
  ghost predicate BothExecute(s: State, c: nat, x: nat, i: nat, j: nat) {
    i < |s.runs| && j < |s.runs| && Executes(s.runs[i], c, x) && Executes(s.runs[j], c, x)
  }

  ghost predicate IsBind(s: State, c: nat, x: nat) {
    (c, x) in s.packed && s.packed[(c, x)].proc == BIND
  }

  /** Bind may execute once in every instance; any other request has one scope. */
  ghost predicate SameScope(s: State, c: nat, x: nat, i: nat, j: nat)
    requires BothExecute(s, c, x, i, j)
  {
    IsBind(s, c, x) ==> s.runs[i].inst == s.runs[j].inst
  }

  ghost predicate OnlyExecution(s: State, c: nat, x: nat, i: nat) {
    && BothExecute(s, c, x, i, i)
    && forall j: nat :: BothExecute(s, c, x, i, j) && SameScope(s, c, x, i, j) ==> j == i
  }

  /** A request that is not bind executes only in the instance its header names. */
  lemma OneInstance(s: State, c: nat, x: nat, i: nat)
    requires Inv(s) && i < |s.runs| && Executes(s.runs[i], c, x) && !IsBind(s, c, x)
    ensures s.runs[i].inst == s.runs[i].req.srv
    ensures s.runs[i].req == s.packed[(c, x)]
  {
    assert RunOk(s, s.runs[i]);
  }

  /** Two executions in one instance mean that the second was accepted late. */
  lemma RepeatIsLate(s: State, c: nat, x: nat, i: nat, j: nat)
    requires Inv(s) && BothExecute(s, c, x, i, j) && i != j
    requires s.runs[i].inst == s.runs[j].inst
    ensures (s.runs[i].inst, c, x) in s.late
  {}

  /** At most once, with no assumption on the network: an xid at or above the
      client's window front has at most one execution per server instance, and if
      it is not bind, at most one over all instances. */
  lemma UnacknowledgedRunsOnce(acts: seq<Action>, c: nat, x: nat, i: nat, j: nat)
    requires Legal(acts) && c in After(acts).clients
    requires Front(After(acts).clients[c].completed) <= x
    requires BothExecute(After(acts), c, x, i, j)
    requires SameScope(After(acts), c, x, i, j)
    ensures i == j
  {
    var s := After(acts);
    Safe(acts);
    if i != j {
      if !IsBind(s, c, x) {
        OneInstance(s, c, x, i);
        OneInstance(s, c, x, j);
      }
      RepeatIsLate(s, c, x, i, j);
    }
  }

  /** In particular an xid whose caller still waits: it is above the front. */
  lemma WaitingIsUnacknowledged(acts: seq<Action>, c: nat, x: nat)
    requires Legal(acts) && c in After(acts).clients
    requires x in After(acts).clients[c].calls && After(acts).clients[c].calls[x].Waiting?
    ensures Front(After(acts).clients[c].completed) < x
  {
    var s := After(acts);
    Safe(acts);
    assert ClientOk(s, c, s.clients[c]);
    assert 1 <= s.packed[(c, x)].xid;
    UncompletedAboveFront(s.clients[c].completed, x);
  }

  /** At most once for the whole run and over all instances (for bind: in each
      instance), for a request of which no copy was accepted after a header with a
      larger acknowledgement. */
  lemma TimelyRunsOnce(acts: seq<Action>, c: nat, x: nat, i: nat, j: nat)
    requires Legal(acts) && BothExecute(After(acts), c, x, i, j)
    requires SameScope(After(acts), c, x, i, j)
    requires forall n :: (n, c, x) !in After(acts).late
    ensures i == j
  {
    var s := After(acts);
    Safe(acts);
    if !IsBind(s, c, x) {
      OneInstance(s, c, x, i);
      OneInstance(s, c, x, j);
    }
    if i != j {
      RepeatIsLate(s, c, x, i, j);
    }
  }

  /** A waiting caller takes any reply.  And exactly once: when a reply with ret >= 0
      completes the call, one execution has that very result, and it is the only one
      (for bind, the only one in its instance). */
  lemma AnswerIsTheOneExecution(acts: seq<Action>, p: Reply)
    requires Legal(acts) && Enabled(After(acts), GotReply(p))
    requires p.xid in After(acts).clients[p.clt].calls && After(acts).clients[p.clt].calls[p.xid].Waiting?
    ensures Do(After(acts), GotReply(p)).clients[p.clt].calls[p.xid] == C.Answered(p.res)
    ensures p.res.ret >= 0 ==>
              exists i: nat :: OnlyExecution(Do(After(acts), GotReply(p)), p.clt, p.xid, i)
                            && HasResult(Do(After(acts), GotReply(p)).runs[i], p.res)
  {
    if p.res.ret >= 0 {
      var i := TheOneExecution(acts, p);
    }
  }

  lemma TheOneExecution(acts: seq<Action>, p: Reply) returns (i: nat)
    requires Legal(acts) && Enabled(After(acts), GotReply(p)) && p.res.ret >= 0
    requires p.xid in After(acts).clients[p.clt].calls && After(acts).clients[p.clt].calls[p.xid].Waiting?
    ensures OnlyExecution(Do(After(acts), GotReply(p)), p.clt, p.xid, i)
    ensures HasResult(Do(After(acts), GotReply(p)).runs[i], p.res)
  {
    var s, s' := After(acts), Do(After(acts), GotReply(p));
    i := ReplyWasComputed(acts, p);
    WaitingIsUnacknowledged(acts, p.clt, p.xid);
    forall j: nat | BothExecute(s', p.clt, p.xid, i, j) && SameScope(s', p.clt, p.xid, i, j)
      ensures j == i
    {
      assert BothExecute(s, p.clt, p.xid, i, j);
      UnacknowledgedRunsOnce(acts, p.clt, p.xid, i, j);
    }
  }

  /** A reply with ret >= 0 carries the result of some execution of its request. */
  lemma ReplyWasComputed(acts: seq<Action>, p: Reply) returns (i: nat)
    requires Legal(acts) && p in After(acts).reps && p.res.ret >= 0
    ensures i < |After(acts).runs|
    ensures Executes(After(acts).runs[i], p.clt, p.xid) && HasResult(After(acts).runs[i], p.res)
  {
    Safe(acts);
    assert Ran(After(acts).runs, p.clt, p.xid, p.res);
    i :| 0 <= i < |After(acts).runs| && Executes(After(acts).runs[i], p.clt, p.xid)
      && HasResult(After(acts).runs[i], p.res);
  }

  /** Every header ever sent acknowledges only xids below its own, and no more than
      its client has completed. */
  lemma HeadersAcknowledgeThePast(acts: seq<Action>, q: Request)
    requires Legal(acts) && q in After(acts).reqs
    ensures q.rep < q.xid && q.clt in After(acts).clients
    ensures q.rep <= Front(After(acts).clients[q.clt].completed)
  {
    Safe(acts);
    assert After(acts).packed[(q.clt, q.xid)] == q;
  }

  /** From a to b the entry of x moves at most from absent to in progress to done;
      once done it keeps its reply. */
  ghost predicate MovesForward(a: Entries<Result>, b: Entries<Result>, x: nat) {
    && (x in a ==> x in b)
    && (x !in a && x in b ==> b[x] == InProgress)
    && (x in a && a[x].Stored? ==> b[x] == a[x])
  }

  /** The one execution of x cannot return a second time. */
  lemma SavedOnce(acts: seq<Action>, i: nat, c: nat, x: nat)
    requires Legal(acts) && Enabled(After(acts), Save(i)) && Executes(After(acts).runs[i], c, x)
    requires c in After(acts).clients && Front(After(acts).clients[c].completed) <= x
    ensures x in For(After(acts).window, c) ==> For(After(acts).window, c)[x] == InProgress
  {
    var s := After(acts);
    var m := For(s.window, c);
    Safe(acts);
    if x in m && m[x].Stored? {
      assert HasSaved(s.runs, s.inst, c, x, m[x].reply);
      var j: nat :| j < |s.runs| && s.runs[j].inst == s.inst && Executes(s.runs[j], c, x)
                 && s.runs[j].phase == Saved(m[x].reply);
      UnacknowledgedRunsOnce(acts, c, x, i, j);
      assert false;
    }
  }

  /** Whatever the verdict, the window changes as Admit says or not at all. */
  lemma DispatchAdmits(s: State, q: Request)
    ensures Dispatch(s, q).window == s.window || Dispatch(s, q).window == Admitted(s, q).window
    ensures var s' := Dispatch(s, q); s'.clients == s.clients && s'.binds == s.binds && s'.packed == s.packed
    ensures Dispatch(s, q).inst == s.inst
  {
    if q.srv == 0 || q.srv == s.inst {
      match Judge(For(s.window, q.clt), q.xid, q.rep)
      case New =>
      case Busy =>
      case Done(res) =>
      case Forgotten =>
    }
  }

  lemma DeliverMovesForward(s: State, q: Request, c: nat, x: nat)
    requires PackedOk(s) && RequestsOk(s) && q in s.reqs
    requires c in s.clients && Front(s.clients[c].completed) <= x
    ensures MovesForward(For(s.window, c), For(Dispatch(s, q).window, c), x)
  {
    assert s.packed[(q.clt, q.xid)] == q;
    DispatchAdmits(s, q);
    assert For(Admitted(s, q).window, c) == For(s.window, c) || c == q.clt;
  }

  /** The entry of an unacknowledged xid moves only from absent to in progress to
      done, and once done it keeps the one reply it was given. */
  lemma EntryMovesForward(acts: seq<Action>, a: Action, c: nat, x: nat)
    requires Legal(acts) && Enabled(After(acts), a) && !a.Boot?
    requires c in After(acts).clients && Front(After(acts).clients[c].completed) <= x
    ensures MovesForward(For(After(acts).window, c), For(Do(After(acts), a).window, c), x)
  {
    var s := After(acts);
    if a.Deliver? {
      Safe(acts);
      DeliverMovesForward(s, a.q, c, x);
    } else if a.Save? && Executes(s.runs[a.i], c, x) {
      SavedOnce(acts, a.i, c, x);
    }
  }

  /** A duplicate of a request that is done is answered with the reply on record, is
      not executed, and leaves the entry as it is. */
  lemma DoneAnswerIsTheStoredReply(s: State, q: Request, res: Result)
    requires Enabled(s, Deliver(q)) && (q.srv == 0 || q.srv == s.inst) && q.rep < q.xid
    requires IsStored(s, q.clt, q.xid, res)
    ensures var s' := Do(s, Deliver(q));
            s'.reps == s.reps + {Reply(q.clt, q.xid, res)} && s'.runs == s.runs
  {}

  /** The window has res as the reply of request x of client c. */
  ghost predicate IsStored(s: State, c: nat, x: nat, res: Result) {
    x in For(s.window, c) && For(s.window, c)[x] == Stored(res)
  }

  lemma EntryHasClient(s: State, c: nat, x: nat)
    requires Inv(s) && x in For(s.window, c)
    ensures c in s.clients
  {
    assert HasRun(s.runs, s.inst, c, x);
    var i :| 0 <= i < |s.runs| && s.runs[i].inst == s.inst && Executes(s.runs[i], c, x);
    assert RunOk(s, s.runs[i]);
  }

  lemma ClientStepGrows(s: State, a: Action, c: nat)
    requires Enabled(s, a) && c in s.clients
    ensures c in Do(s, a).clients && s.clients[c].completed <= Do(s, a).clients[c].completed
  {
    if !(a.Return? || a.Call? || a.Connect? || a.Transmit? || a.GotReply? || a.StoreBind?) {
      ServerActionFrame(s, a);
    }
  }

  /** A saved reply stays while its server instance runs and its xid is unacknowledged. */
  lemma {:induction false} SavedReplyStays(before: seq<Action>, after: seq<Action>, c: nat, x: nat, res: Result)
    requires Legal(before) && Legal(before + after) && IsStored(After(before), c, x, res)
    requires forall i :: 0 <= i < |after| ==> !after[i].Boot?
    requires c in After(before + after).clients && Front(After(before + after).clients[c].completed) <= x
    ensures IsStored(After(before + after), c, x, res) && After(before + after).inst == After(before).inst
    decreases |after|
  {
    if after == [] {
      assert before + after == before;
    } else {
      var most, a := after[..|after| - 1], after[|after| - 1];
      LastStep(before, after);
      ClientRemains(before, most, c, x, res);
      FrontStepGrows(After(before + most), a, c);
      SavedReplyStays(before, most, c, x, res);
      SavedReplyStep(before + most, a, c, x, res);
    }
  }

  lemma LastStep(before: seq<Action>, after: seq<Action>)
    requires Legal(before + after) && after != []
    ensures var most, a := before + after[..|after| - 1], after[|after| - 1];
            Legal(most) && Enabled(After(most), a) && After(before + after) == Do(After(most), a)
  {
    assert (before + after)[..|before + after| - 1] == before + after[..|after| - 1];
  }

  lemma SavedReplyStep(acts: seq<Action>, a: Action, c: nat, x: nat, res: Result)
    requires Legal(acts) && Enabled(After(acts), a) && !a.Boot? && IsStored(After(acts), c, x, res)
    requires c in After(acts).clients && Front(After(acts).clients[c].completed) <= x
    ensures IsStored(Do(After(acts), a), c, x, res) && Do(After(acts), a).inst == After(acts).inst
  {
    EntryMovesForward(acts, a, c, x);
    InstanceStays(After(acts), a);
  }

  lemma InstanceStays(s: State, a: Action)
    requires Enabled(s, a) && !a.Boot?
    ensures Do(s, a).inst == s.inst
  {
    if a.Deliver? {
      DispatchAdmits(s, a.q);
    }
  }

  lemma FrontStepGrows(s: State, a: Action, c: nat)
    requires Enabled(s, a) && c in s.clients
    ensures c in Do(s, a).clients && Front(s.clients[c].completed) <= Front(Do(s, a).clients[c].completed)
  {
    ClientStepGrows(s, a, c);
    FrontIsMonotone(s.clients[c].completed, Do(s, a).clients[c].completed,
                    Front(s.clients[c].completed), Front(Do(s, a).clients[c].completed));
  }

  lemma {:induction false} ClientRemains(before: seq<Action>, after: seq<Action>, c: nat, x: nat, res: Result)
    requires Legal(before) && Legal(before + after) && IsStored(After(before), c, x, res)
    ensures c in After(before + after).clients
    decreases |after|
  {
    if after == [] {
      Safe(before);
      EntryHasClient(After(before), c, x);
      assert before + after == before;
    } else {
      var most := after[..|after| - 1];
      LastStep(before, after);
      ClientRemains(before, most, c, x, res);
      ClientStepGrows(After(before + most), after[|after| - 1], c);
    }
  }

  /** Once a reply is in the window, every duplicate that the same instance accepts is
      answered with it and not executed, whatever happens in between, until the client
      acknowledges the request. */
  lemma DuplicatesGetTheStoredReply(before: seq<Action>, after: seq<Action>, q: Request, res: Result)
    requires Legal(before) && Legal(before + after) && IsStored(After(before), q.clt, q.xid, res)
    requires forall i :: 0 <= i < |after| ==> !after[i].Boot?
    requires Enabled(After(before + after), Deliver(q)) && (q.srv == 0 || q.srv == After(before).inst)
    requires q.clt in After(before + after).clients
    requires Front(After(before + after).clients[q.clt].completed) <= q.xid
    ensures var s, s' := After(before + after), Do(After(before + after), Deliver(q));
            s'.reps == s.reps + {Reply(q.clt, q.xid, res)} && s'.runs == s.runs
  {
    SavedReplyStays(before, after, q.clt, q.xid, res);
    HeadersAcknowledgeThePast(before + after, q);
    DoneAnswerIsTheStoredReply(After(before + after), q, res);
  }

  /** All answers with ret >= 0 to an unacknowledged request that is not bind agree. */
  lemma AnswersAgree(acts: seq<Action>, p: Reply, p': Reply)
    requires Legal(acts) && p in After(acts).reps && p' in After(acts).reps
    requires p.clt == p'.clt && p.xid == p'.xid && p.res.ret >= 0 && p'.res.ret >= 0
    requires p.clt in After(acts).clients && Front(After(acts).clients[p.clt].completed) <= p.xid
    requires !IsBind(After(acts), p.clt, p.xid)
    ensures p == p'
  {
    var i := ReplyWasComputed(acts, p);
    var j := ReplyWasComputed(acts, p');
    UnacknowledgedRunsOnce(acts, p.clt, p.xid, i, j);
  }

  /** Client c learned the nonce n from a bind that instance n executed. */
  ghost predicate Learned(s: State, c: int, n: int) {
    exists i :: 0 <= i < |s.runs| && s.runs[i].inst == n && s.runs[i].req.clt == c
             && s.runs[i].req.proc == BIND && HasResult(s.runs[i], Result(0, n))
  }

  ghost predicate NoncesLearned(s: State) {
    && (forall c :: c in s.clients && s.clients[c].bound ==> Learned(s, c, s.clients[c].srv))
    && (forall k :: k in s.binds ==> Learned(s, k.0, s.binds[k]))
    && (forall k :: k in s.packed && s.packed[k].proc != BIND ==> Learned(s, k.0, s.packed[k].srv))
  }

  lemma LearnedStays(s: State, s': State)
    requires Extends(s.runs, s'.runs)
    ensures forall c, n :: Learned(s, c, n) ==> Learned(s', c, n)
  {
    forall c, n | Learned(s, c, n)
      ensures Learned(s', c, n)
    {
      var i :| 0 <= i < |s.runs| && s.runs[i].inst == n && s.runs[i].req.clt == c
            && s.runs[i].req.proc == BIND && HasResult(s.runs[i], Result(0, n));
      assert HasResult(s'.runs[i], Result(0, n));
    }
  }

  lemma StepExtends(s: State, a: Action)
    requires Enabled(s, a)
    ensures Extends(s.runs, Do(s, a).runs)
  {
    if a.Deliver? {
      DispatchExtends(s, a.q);
    }
  }

  lemma DispatchExtends(s: State, q: Request)
    ensures Extends(s.runs, Dispatch(s, q).runs)
  {
    match Judge(For(s.window, q.clt), q.xid, q.rep)
    case New =>
    case _ => assert Dispatch(s, q).runs == s.runs;
  }

  /** A bind that returned 0 was executed by the instance whose nonce it returns. */
  lemma BindReturnIsLearned(s: State, c: nat, x: nat)
    requires Inv(s) && Enabled(s, Return(c, x)) && s.packed[(c, x)].proc == BIND
    requires s.clients[c].calls[x].Answered? && s.clients[c].calls[x].res.ret == 0
    ensures s.clients[c].calls[x].res.val >= 0 ==> Learned(s, c, s.clients[c].calls[x].res.val)
  {
    var res := s.clients[c].calls[x].res;
    ReturnSucceeds(s, c, x);
    var i :| 0 <= i < |s.runs| && Executes(s.runs[i], c, x) && HasResult(s.runs[i], res);
    assert RunOk(s, s.runs[i]);
  }

  lemma ReturnKeepsLearned(s: State, c: nat, x: nat)
    requires NoncesLearned(s) && Enabled(s, Return(c, x))
    requires var caller := s.clients[c].calls[x];
             s.packed[(c, x)].proc == BIND && caller.Answered? && caller.res.ret == 0 && caller.res.val >= 0 ==>
               Learned(s, c, caller.res.val)
    ensures NoncesLearned(Do(s, Return(c, x)))
  {
    StillLearned(s, Do(s, Return(c, x)));
  }

  /** No nonce is used, or brought by a bind, that was not learned before. */
  lemma StillLearned(s: State, s': State)
    requires NoncesLearned(s) && s'.runs == s.runs && s'.packed == s.packed
    requires forall c :: c in s'.clients && s'.clients[c].bound ==>
               (c in s.clients && s.clients[c].bound && s.clients[c].srv == s'.clients[c].srv)
               || Learned(s, c, s'.clients[c].srv)
    requires forall k :: k in s'.binds ==>
               (k in s.binds && s.binds[k] == s'.binds[k]) || Learned(s, k.0, s'.binds[k])
    ensures NoncesLearned(s')
  {
    LearnedStays(s, s');
  }

  lemma CallKeepsLearned(s: State, c: nat, proc: nat, args: seq<int>)
    requires NoncesLearned(s) && Enabled(s, Call(c, proc, args))
    ensures NoncesLearned(Do(s, Call(c, proc, args)))
  {
    LearnedStays(s, Do(s, Call(c, proc, args)));
  }

  lemma ClientStepsKeepLearned(s: State, a: Action)
    requires NoncesLearned(s) && Enabled(s, a)
    requires a.Connect? || a.Transmit? || a.GotReply? || a.StoreBind?
    ensures NoncesLearned(Do(s, a))
  {
    StillLearned(s, Do(s, a));
  }

  lemma ServerActionFrame(s: State, a: Action)
    requires Enabled(s, a)
    requires !a.Return? && !a.Call? && !a.Connect? && !a.Transmit? && !a.GotReply? && !a.StoreBind?
    ensures Do(s, a).clients == s.clients && Do(s, a).binds == s.binds && Do(s, a).packed == s.packed
  {
    match a
    case Deliver(q) => DispatchAdmits(s, q);
    case Boot(n) =>
    case StartHandler(i) =>
    case FinishHandler(i, res) =>
    case Save(i) =>
    case Send(i) =>
  }

  lemma RunsKeepLearned(s: State, s': State)
    requires NoncesLearned(s) && Extends(s.runs, s'.runs)
    requires s'.clients == s.clients && s'.binds == s.binds && s'.packed == s.packed
    ensures NoncesLearned(s')
  {
    LearnedStays(s, s');
  }

  lemma ReturnStepKeepsLearned(s: State, c: nat, x: nat)
    requires Inv(s) && NoncesLearned(s) && Enabled(s, Return(c, x))
    ensures NoncesLearned(Do(s, Return(c, x)))
  {
    var caller := s.clients[c].calls[x];
    if s.packed[(c, x)].proc == BIND && caller.Answered? && caller.res.ret == 0 {
      BindReturnIsLearned(s, c, x);
    }
    ReturnKeepsLearned(s, c, x);
  }

  lemma StepKeepsLearned(s: State, a: Action)
    requires Inv(s) && NoncesLearned(s) && Enabled(s, a)
    ensures NoncesLearned(Do(s, a))
  {
    if a.Return? {
      ReturnStepKeepsLearned(s, a.clt, a.xid);
    } else if a.Call? {
      CallKeepsLearned(s, a.clt, a.proc, a.args);
    } else if a.Connect? || a.Transmit? || a.GotReply? || a.StoreBind? {
      ClientStepsKeepLearned(s, a);
    } else {
      StepExtends(s, a);
      ServerActionFrame(s, a);
      RunsKeepLearned(s, Do(s, a));
    }
  }

  lemma {:induction false} AllNoncesLearned(acts: seq<Action>)
    requires Legal(acts)
    ensures NoncesLearned(After(acts))
  {
    if acts != [] {
      AllNoncesLearned(acts[..|acts| - 1]);
      Safe(acts[..|acts| - 1]);
      StepKeepsLearned(After(acts[..|acts| - 1]), acts[|acts| - 1]);
    }
  }

  /** Across restarts a request that is not bind executes only in an instance that
      executed a bind of the same client and returned its nonce to it. */
  lemma ExecutesWhereBound(acts: seq<Action>, i: nat)
    requires Legal(acts) && i < |After(acts).runs| && After(acts).runs[i].req.proc != BIND
    ensures Learned(After(acts), After(acts).runs[i].req.clt, After(acts).runs[i].inst)
  {
    var s := After(acts);
    Safe(acts);
    AllNoncesLearned(acts);
    assert RunOk(s, s.runs[i]);
  }
}
