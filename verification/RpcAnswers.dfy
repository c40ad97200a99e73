/** What the server answers, and what the callers are told, over every run. */
module RpcAnswers {
  import opened RpcTypes
  import opened XidWindow
  import opened ReplySpec
  import opened RpcProtocol
  import opened RpcSafety
  import opened RpcTheorems
  import C = ClientSpec

  // ---------- The window agrees with the executions ----------

  /** What was accepted late in this instance lies below the acknowledgement on record. */
  ghost predicate LateIsAcked(s: State) {
    forall n, c, x :: (n, c, x) in s.late ==> n in s.used && (n == s.inst ==> x < Acked(s, c))
  }

  /** Run i belongs to this instance and no accepted header acknowledges it. */
  ghost predicate Current(s: State, i: int) {
    0 <= i < |s.runs| && s.runs[i].inst == s.inst && Acked(s, s.runs[i].req.clt) <= s.runs[i].req.xid
  }

  /** The reply of a saved run is in the window until it is acknowledged. */
  ghost predicate SavedIsStored(s: State) {
    forall i :: Current(s, i) && s.runs[i].phase.Saved? ==>
      IsStored(s, s.runs[i].req.clt, s.runs[i].req.xid, s.runs[i].phase.res)
  }

  ghost predicate WindowAgrees(s: State) {
    LateIsAcked(s) && SavedIsStored(s)
  }

  /** A request that is not acknowledged has one run in this instance. */
  lemma OneCurrentRun(s: State, i: int, j: int)
    requires RepeatsAreLate(s) && LateIsAcked(s) && Current(s, i) && Current(s, j)
    requires Executes(s.runs[i], s.runs[j].req.clt, s.runs[j].req.xid)
    ensures i == j
  {
    NoEarlierRun(s, i, j);
    NoEarlierRun(s, j, i);
  }

  lemma NoEarlierRun(s: State, i: int, j: int)
    requires RepeatsAreLate(s) && LateIsAcked(s) && Current(s, i) && Current(s, j)
    requires Executes(s.runs[i], s.runs[j].req.clt, s.runs[j].req.xid)
    ensures i >= j
  {}

  /** The actions of clients do not touch the server. */
  lemma ClientActionFrame(s: State, a: Action)
    requires Enabled(s, a)
    requires a.Connect? || a.Call? || a.Transmit? || a.GotReply? || a.Return? || a.StoreBind?
    ensures var s' := Do(s, a);
            && s'.runs == s.runs && s'.window == s.window && s'.inst == s.inst
            && s'.acked == s.acked && s'.late == s.late && s'.used == s.used && s'.reps == s.reps
  {}

  lemma BootAgrees(s: State, n: nat)
    requires RunsOk(s) && LateIsAcked(s) && Enabled(s, Boot(n))
    ensures WindowAgrees(Do(s, Boot(n)))
  {
    var s' := Do(s, Boot(n));
    forall i | 0 <= i < |s'.runs|
      ensures !Current(s', i)
    {
      assert RunOk(s, s.runs[i]);
    }
  }

  lemma AdmittedAgrees(s: State, q: Request)
    requires WindowAgrees(s) && s.inst in s.used
    ensures WindowAgrees(Admitted(s, q))
  {
    var s' := Admitted(s, q);
    forall i | Current(s', i) && s'.runs[i].phase.Saved?
      ensures IsStored(s', s'.runs[i].req.clt, s'.runs[i].req.xid, s'.runs[i].phase.res)
    {
      assert Current(s, i);
    }
  }

  lemma MoreRunsAgree(s: State, r: Run)
    requires WindowAgrees(s) && !r.phase.Saved?
    ensures WindowAgrees(s.(runs := s.runs + [r]))
  {
    var s' := s.(runs := s.runs + [r]);
    forall i | Current(s', i) && s'.runs[i].phase.Saved?
      ensures IsStored(s', s'.runs[i].req.clt, s'.runs[i].req.xid, s'.runs[i].phase.res)
    {
      assert Current(s, i);
    }
  }

  lemma RepliesAgree(s: State, reps: set<Reply>)
    requires WindowAgrees(s)
    ensures WindowAgrees(s.(reps := reps))
  {
    var s' := s.(reps := reps);
    forall i | Current(s', i) && s'.runs[i].phase.Saved?
      ensures IsStored(s', s'.runs[i].req.clt, s'.runs[i].req.xid, s'.runs[i].phase.res)
    {
      assert Current(s, i);
    }
  }

  lemma DispatchAgrees(s: State, q: Request)
    requires WindowAgrees(s) && s.inst in s.used
    ensures WindowAgrees(Dispatch(s, q))
  {
    AdmittedAgrees(s, q);
    RepliesAgree(s, Dispatch(s, q).reps);
    RepliesAgree(Admitted(s, q), Dispatch(s, q).reps);
    MoreRunsAgree(Admitted(s, q), Run(s.inst, q, Accepted));
    DispatchCases(s, q);
  }

  lemma DispatchCases(s: State, q: Request)
    ensures var s1, s' := Admitted(s, q), Dispatch(s, q);
            || s' == s.(reps := s'.reps)
            || s' == s1.(reps := s'.reps)
            || s' == s1.(runs := s.runs + [Run(s.inst, q, Accepted)])
  {
    if q.srv == 0 || q.srv == s.inst {
      match Judge(For(s.window, q.clt), q.xid, q.rep)
      case New =>
      case _ =>
    }
  }

  lemma AdvanceAgrees(s: State, i: nat, phase: Phase)
    requires WindowAgrees(s) && CanRun(s, i) && !phase.Saved?
    ensures WindowAgrees(Advance(s, i, phase))
  {
    var s' := Advance(s, i, phase);
    forall j | Current(s', j) && s'.runs[j].phase.Saved?
      ensures IsStored(s', s'.runs[j].req.clt, s'.runs[j].req.xid, s'.runs[j].phase.res)
    {
      assert Current(s, j);
    }
  }

  /** Saving stores the reply of an unacknowledged run; the others keep theirs. */
  lemma SaveAgrees(s: State, i: nat)
    requires WindowAgrees(s) && EntriesKept(s) && RepeatsAreLate(s) && Enabled(s, Save(i))
    ensures WindowAgrees(Do(s, Save(i)))
  {
    var s' := Do(s, Save(i));
    forall j | Current(s', j) && s'.runs[j].phase.Saved?
      ensures IsStored(s', s'.runs[j].req.clt, s'.runs[j].req.xid, s'.runs[j].phase.res)
    {
      assert Current(s, j);
      if Executes(s.runs[i], s.runs[j].req.clt, s.runs[j].req.xid) {
        assert Current(s, i);
        OneCurrentRun(s, i, j);
      }
    }
  }

  lemma StepAgrees(s: State, a: Action)
    requires Inv(s) && WindowAgrees(s) && Enabled(s, a)
    ensures WindowAgrees(Do(s, a))
  {
    if a.Connect? || a.Call? || a.Transmit? || a.GotReply? || a.Return? || a.StoreBind? {
      ClientActionAgrees(s, a);
    } else {
      ServerActionAgrees(s, a);
    }
  }

  lemma ServerActionAgrees(s: State, a: Action)
    requires RunsOk(s) && EntriesKept(s) && RepeatsAreLate(s) && s.inst in s.used + {0}
    requires WindowAgrees(s) && Enabled(s, a)
    requires a.Boot? || a.Deliver? || a.StartHandler? || a.FinishHandler? || a.Save? || a.Send?
    ensures WindowAgrees(Do(s, a))
  {
    match a
    case Boot(n) => BootAgrees(s, n);
    case Deliver(q) => DispatchAgrees(s, q);
    case StartHandler(i) => AdvanceAgrees(s, i, Running);
    case FinishHandler(i, res) => AdvanceAgrees(s, i, Returned(res));
    case Save(i) => SaveAgrees(s, i);
    case Send(i) => RepliesAgree(s, Do(s, a).reps);
  }

  lemma ClientActionAgrees(s: State, a: Action)
    requires WindowAgrees(s) && Enabled(s, a)
    requires a.Connect? || a.Call? || a.Transmit? || a.GotReply? || a.Return? || a.StoreBind?
    ensures WindowAgrees(Do(s, a))
  {
    ClientActionFrame(s, a);
    var s' := Do(s, a);
    forall i | Current(s', i) && s'.runs[i].phase.Saved?
      ensures IsStored(s', s'.runs[i].req.clt, s'.runs[i].req.xid, s'.runs[i].phase.res)
    {
      assert Current(s, i);
    }
  }

  lemma {:induction false} AlwaysAgrees(acts: seq<Action>)
    requires Legal(acts)
    ensures WindowAgrees(After(acts))
  {
    if acts != [] {
      AlwaysAgrees(acts[..|acts| - 1]);
      Safe(acts[..|acts| - 1]);
      StepAgrees(After(acts[..|acts| - 1]), acts[|acts| - 1]);
    }
  }

  /** Run i belongs to this instance and its client has not acknowledged it. */
  ghost predicate Unacknowledged(s: State, i: nat) {
    && i < |s.runs| && s.runs[i].inst == s.inst && s.runs[i].req.clt in s.clients
    && Front(s.clients[s.runs[i].req.clt].completed) <= s.runs[i].req.xid
  }

  lemma UnacknowledgedIsCurrent(s: State, i: nat)
    requires AckedOk(s) && Unacknowledged(s, i)
    ensures Current(s, i)
  {}

  /** A saved reply is really saved: every execution whose reply was saved has it in the
      window until the client acknowledges it. */
  lemma SavedReplyIsStored(acts: seq<Action>, i: nat)
    requires Legal(acts) && Unacknowledged(After(acts), i) && After(acts).runs[i].phase.Saved?
    ensures var r := After(acts).runs[i]; IsStored(After(acts), r.req.clt, r.req.xid, r.phase.res)
  {
    Safe(acts);
    AlwaysAgrees(acts);
    UnacknowledgedIsCurrent(After(acts), i);
  }

  /** Once an execution has saved its reply, every duplicate that the same instance
      accepts is answered with that reply and not executed, whatever happens in between,
      until the client acknowledges the request. */
  lemma DuplicatesGetTheSavedReply(before: seq<Action>, after: seq<Action>, i: nat, q: Request)
    requires Legal(before) && Legal(before + after)
    requires Unacknowledged(After(before), i) && After(before).runs[i].phase.Saved?
    requires Executes(After(before).runs[i], q.clt, q.xid)
    requires forall k :: 0 <= k < |after| ==> !after[k].Boot?
    requires Enabled(After(before + after), Deliver(q)) && (q.srv == 0 || q.srv == After(before).inst)
    requires q.clt in After(before + after).clients
    requires Front(After(before + after).clients[q.clt].completed) <= q.xid
    ensures var s, s' := After(before + after), Do(After(before + after), Deliver(q));
            && s'.reps == s.reps + {Reply(q.clt, q.xid, After(before).runs[i].phase.res)}
            && s'.runs == s.runs
  {
    SavedReplyIsStored(before, i);
    DuplicatesGetTheStoredReply(before, after, q, After(before).runs[i].phase.res);
  }

  // ---------- What a delivery leads to ----------

  ghost predicate HasNoRun(s: State, c: nat, x: nat) {
    !HasRun(s.runs, s.inst, c, x)
  }

  /** The entry of a run that is not acknowledged says how far the run is. */
  lemma EntryOfCurrentRun(s: State, i: int)
    requires Inv(s) && WindowAgrees(s) && Current(s, i)
    ensures var q, m := s.runs[i].req, For(s.window, s.runs[i].req.clt);
            && q.xid in m
            && m[q.xid] == match s.runs[i].phase case Saved(res) => Stored(res) case _ => InProgress
  {
    var q := s.runs[i].req;
    var m := For(s.window, q.clt);
    assert q.xid in m;
    if !s.runs[i].phase.Saved? && m[q.xid].Stored? {
      assert HasSaved(s.runs, s.inst, q.clt, q.xid, m[q.xid].reply);
      var j :| 0 <= j < |s.runs| && s.runs[j].inst == s.inst && Executes(s.runs[j], q.clt, q.xid)
            && s.runs[j].phase == Saved(m[q.xid].reply);
      OneCurrentRun(s, i, j);
    }
  }

  /** A request for another instance is refused, and nothing else happens. */
  lemma OldInstanceIsRefused(s: State, q: Request)
    requires q.srv != 0 && q.srv != s.inst
    ensures Dispatch(s, q) == s.(reps := s.reps + {Reply(q.clt, q.xid, Result(OLDSRV_FAILURE, 0))})
  {}

  /** What the delivery of a copy of a request leads to while no accepted header
      acknowledges it.  Without a run it starts one; while its run has not saved a reply
      the copy is ignored; afterwards it gets the run's own result. */
  lemma DeliveryExactly(acts: seq<Action>, q: Request)
    requires Legal(acts) && Enabled(After(acts), Deliver(q)) && (q.srv == 0 || q.srv == After(acts).inst)
    requires Acked(After(acts), q.clt) <= q.xid
    ensures var s, s' := After(acts), Do(After(acts), Deliver(q));
            && (HasNoRun(s, q.clt, q.xid) ==>
                 s'.runs == s.runs + [Run(s.inst, q, Accepted)] && s'.reps == s.reps)
            && (forall i: nat :: i < |s.runs| && s.runs[i].inst == s.inst && Executes(s.runs[i], q.clt, q.xid) ==>
                 && s'.runs == s.runs
                 && s'.reps == match s.runs[i].phase
                               case Saved(res) => s.reps + {Reply(q.clt, q.xid, res)}
                               case _ => s.reps)
  {
    var s := After(acts);
    Safe(acts);
    AlwaysAgrees(acts);
    HeadersAcknowledgeThePast(acts, q);
    if HasNoRun(s, q.clt, q.xid) {
      assert q.xid !in For(s.window, q.clt);
    }
    forall i: nat | i < |s.runs| && s.runs[i].inst == s.inst && Executes(s.runs[i], q.clt, q.xid)
      ensures var s' := Dispatch(s, q);
              && s'.runs == s.runs
              && s'.reps == match s.runs[i].phase
                            case Saved(res) => s.reps + {Reply(q.clt, q.xid, res)}
                            case _ => s.reps
    {
      assert Current(s, i);
      EntryOfCurrentRun(s, i);
      KnownIsNotRun(s, q);
    }
  }

  lemma KnownIsNotRun(s: State, q: Request)
    requires (q.srv == 0 || q.srv == s.inst) && q.rep < q.xid && q.xid in For(s.window, q.clt)
    ensures var s' := Dispatch(s, q);
            && s'.runs == s.runs
            && s'.reps == match For(s.window, q.clt)[q.xid]
                          case Stored(res) => s.reps + {Reply(q.clt, q.xid, res)}
                          case InProgress => s.reps
  {}

  // ---------- Which codes are ever sent ----------

  /** The code of a handler, or the refusal of an old instance's request. */
  ghost predicate Sendable(ret: int) {
    ret >= 0 || ret == UNMARSHAL_ARGS_FAILURE || ret == OLDSRV_FAILURE
  }

  ghost predicate CodesOk(s: State) {
    forall p :: p in s.reps ==> Sendable(p.res.ret)
  }

  /** What a dispatch may send before any handler has run. */
  lemma DispatchSends(s: State, q: Request, p: Reply)
    requires p in Dispatch(s, q).reps && p !in s.reps && q.rep < q.xid
    ensures p.res.ret == OLDSRV_FAILURE || IsStored(s, q.clt, q.xid, p.res)
  {
    if q.srv == 0 || q.srv == s.inst {
      match Judge(For(s.window, q.clt), q.xid, q.rep)
      case Done(res) =>
      case _ =>
    }
  }

  lemma DeliverKeepsCodes(s: State, q: Request)
    requires RunsOk(s) && EntriesEarned(s) && CodesOk(s) && q.rep < q.xid
    ensures CodesOk(Dispatch(s, q))
  {
    forall p | p in Dispatch(s, q).reps
      ensures Sendable(p.res.ret)
    {
      if p !in s.reps {
        DispatchSends(s, q, p);
        if p.res.ret != OLDSRV_FAILURE {
          StoredIsSendable(s, q.clt, q.xid, p.res);
        }
      }
    }
  }

  lemma StoredIsSendable(s: State, c: nat, x: nat, res: Result)
    requires RunsOk(s) && EntriesEarned(s) && IsStored(s, c, x, res)
    ensures Sendable(res.ret)
  {
    assert HasSaved(s.runs, s.inst, c, x, res);
    var i :| 0 <= i < |s.runs| && Executes(s.runs[i], c, x) && s.runs[i].phase == Saved(res);
    assert RunOk(s, s.runs[i]);
  }

  lemma StepKeepsCodes(s: State, a: Action)
    requires Inv(s) && CodesOk(s) && Enabled(s, a)
    ensures CodesOk(Do(s, a))
  {
    if a.Deliver? {
      assert s.packed[(a.q.clt, a.q.xid)] == a.q;
      DeliverKeepsCodes(s, a.q);
    } else if a.Send? {
      SendKeepsCodes(s, a.i);
    } else {
      OthersSendNothing(s, a);
    }
  }

  lemma SendKeepsCodes(s: State, i: nat)
    requires RunsOk(s) && CodesOk(s) && Enabled(s, Send(i))
    ensures CodesOk(Do(s, Send(i)))
  {
    assert RunOk(s, s.runs[i]);
  }

  lemma OthersSendNothing(s: State, a: Action)
    requires Enabled(s, a) && !a.Deliver? && !a.Send?
    ensures Do(s, a).reps == s.reps
  {}

  /** Nobody is ever told atmostonce_failure: the headers of these clients never
      acknowledge their own xid. */
  lemma {:induction false} OnlyTheseCodes(acts: seq<Action>)
    requires Legal(acts)
    ensures CodesOk(After(acts))
  {
    if acts != [] {
      OnlyTheseCodes(acts[..|acts| - 1]);
      Safe(acts[..|acts| - 1]);
      StepKeepsCodes(After(acts[..|acts| - 1]), acts[|acts| - 1]);
    }
  }

  // ---------- What the callers are told ----------

  /** a is the arrival of a reply to request x of client c. */
  ghost predicate Answers(a: Action, c: nat, x: nat) {
    a.GotReply? && a.p.clt == c && a.p.xid == x
  }

  /** The k-th action is the first that answers (c, x). */
  ghost predicate FirstAnswer(acts: seq<Action>, c: nat, x: nat, k: int) {
    0 <= k < |acts| && Answers(acts[k], c, x) && forall j :: 0 <= j < k ==> !Answers(acts[j], c, x)
  }

  ghost predicate NeverAnswered(acts: seq<Action>, c: nat, x: nat) {
    forall k :: 0 <= k < |acts| ==> !Answers(acts[k], c, x)
  }

  lemma {:induction false} PrefixIsLegal(acts: seq<Action>, k: nat)
    requires Legal(acts) && k <= |acts|
    ensures Legal(acts[..k])
    decreases |acts|
  {
    if k == |acts| {
      assert acts[..k] == acts;
    } else {
      PrefixIsLegal(acts[..|acts| - 1], k);
      assert acts[..|acts| - 1][..k] == acts[..k];
    }
  }

  lemma StepOfRun(acts: seq<Action>, k: nat)
    requires Legal(acts) && k < |acts|
    ensures Legal(acts[..k]) && Enabled(After(acts[..k]), acts[k])
    ensures Legal(acts[..k + 1]) && After(acts[..k + 1]) == Do(After(acts[..k]), acts[k])
  {
    PrefixIsLegal(acts, k + 1);
    assert acts[..k + 1][..k] == acts[..k];
  }

  /** Requests on record stay there. */
  lemma StepKeepsPackedKeys(s: State, a: Action)
    requires Enabled(s, a)
    ensures s.packed.Keys <= Do(s, a).packed.Keys
  {
    if !(a.Return? || a.Call? || a.Connect? || a.Transmit? || a.GotReply? || a.StoreBind?) {
      ServerActionFrame(s, a);
    }
  }

  /** Only what was called is answered. */
  lemma {:induction false} AnsweredIsPacked(acts: seq<Action>, c: nat, x: nat)
    requires Legal(acts) && !NeverAnswered(acts, c, x)
    ensures (c, x) in After(acts).packed
  {
    var n := |acts| - 1;
    var most, a := acts[..n], acts[n];
    StepKeepsPackedKeys(After(most), a);
    if Answers(a, c, x) {
      Safe(most);
    } else {
      var k :| 0 <= k < |acts| && Answers(acts[k], c, x);
      assert most[k] == acts[k];
      AnsweredIsPacked(most, c, x);
    }
  }

  /** How a call stands: waiting while no reply has come, else answered by the first. */
  ghost predicate CallStands(acts: seq<Action>, c: nat, x: nat, caller: C.Caller) {
    match caller
    case Waiting => NeverAnswered(acts, c, x)
    case Answered(res) => exists k :: FirstAnswer(acts, c, x, k) && acts[k].p.res == res
  }

  lemma MoreActions(acts: seq<Action>, c: nat, x: nat, caller: C.Caller)
    requires acts != [] && CallStands(acts[..|acts| - 1], c, x, caller)
    requires caller.Waiting? ==> !Answers(acts[|acts| - 1], c, x)
    ensures CallStands(acts, c, x, caller)
  {
    var most := acts[..|acts| - 1];
    assert forall k :: 0 <= k < |most| ==> most[k] == acts[k];
    if caller.Answered? {
      var k :| FirstAnswer(most, c, x, k) && most[k].p.res == caller.res;
      assert FirstAnswer(acts, c, x, k) && acts[k].p.res == caller.res;
    }
  }

  ghost predicate CallsBelowNext(s: State, c: nat) {
    c in s.clients ==> forall x :: x in s.clients[c].calls ==> x < s.clients[c].next
  }

  lemma CallsAreBelowNext(s: State, c: nat)
    requires PackedOk(s) && ClientsOk(s)
    ensures CallsBelowNext(s, c)
  {
    if c in s.clients {
      assert ClientOk(s, c, s.clients[c]);
    }
  }

  /** How an action changes the entry of a call. */
  ghost predicate StandsAfter(s: State, a: Action, s': State, c: nat, x: nat)
    requires c in s'.clients && x in s'.clients[c].calls
  {
    var now := s'.clients[c].calls[x];
    if c in s.clients && x in s.clients[c].calls then
      var was := s.clients[c].calls[x];
      now == if Answers(a, c, x) && was.Waiting? then C.Answered(a.p.res) else was
    else
      c in s.clients && a.Call? && a.clt == c && x == s.clients[c].next && now == C.Waiting
  }

  lemma CallStep(s: State, a: Action, c: nat, x: nat)
    requires CallsBelowNext(s, c) && Enabled(s, a)
    requires c in Do(s, a).clients && x in Do(s, a).clients[c].calls
    ensures StandsAfter(s, a, Do(s, a), c, x)
  {
    match a
    case Connect(_) =>
    case Call(_, _, _) =>
    case Transmit(_, _) =>
    case GotReply(_) =>
    case Return(_, _) =>
    case StoreBind(_, _) =>
    case _ => ServerActionFrame(s, a);
  }

  lemma {:induction false} EveryCallStands(acts: seq<Action>, c: nat, x: nat)
    requires Legal(acts) && c in After(acts).clients && x in After(acts).clients[c].calls
    ensures CallStands(acts, c, x, After(acts).clients[c].calls[x])
  {
    if acts != [] {
      var n := |acts| - 1;
      var s := After(acts[..n]);
      Safe(acts[..n]);
      CallsAreBelowNext(s, c);
      CallStep(s, acts[n], c, x);
      if c in s.clients && x in s.clients[c].calls {
        EveryCallStands(acts[..n], c, x);
        StillStands(acts, c, x, s.clients[c].calls[x]);
      } else {
        FreshIsUnanswered(acts[..n], c);
        MoreActions(acts, c, x, C.Waiting);
      }
    }
  }

  lemma StillStands(acts: seq<Action>, c: nat, x: nat, was: C.Caller)
    requires acts != [] && CallStands(acts[..|acts| - 1], c, x, was)
    ensures var a := acts[|acts| - 1];
            CallStands(acts, c, x, if Answers(a, c, x) && was.Waiting? then C.Answered(a.p.res) else was)
  {
    var n := |acts| - 1;
    if Answers(acts[n], c, x) && was.Waiting? {
      assert forall k :: 0 <= k < n ==> acts[..n][k] == acts[k];
      assert FirstAnswer(acts, c, x, n);
    } else {
      MoreActions(acts, c, x, was);
    }
  }

  lemma FreshIsUnanswered(acts: seq<Action>, c: nat)
    requires Legal(acts) && c in After(acts).clients
    ensures NeverAnswered(acts, c, After(acts).clients[c].next)
  {
    Safe(acts);
    if !NeverAnswered(acts, c, After(acts).clients[c].next) {
      AnsweredIsPacked(acts, c, After(acts).clients[c].next);
      CallIsFresh(After(acts), c);
    }
  }

  /** What `call1` returns, exactly: timeout_failure if no reply has come, and otherwise
      the code and result of the first reply that came. */
  lemma ReturnExactly(acts: seq<Action>, c: nat, x: nat)
    requires Legal(acts) && Enabled(After(acts), Return(c, x))
    ensures var res := C.Outcome(After(acts).clients[c].calls[x]);
            && (NeverAnswered(acts, c, x) ==> res == Result(TIMEOUT_FAILURE, 0))
            && (forall k :: FirstAnswer(acts, c, x, k) ==> acts[k].p == Reply(c, x, res))
            && (!NeverAnswered(acts, c, x) ==> Reply(c, x, res) in After(acts).reps)
  {
    var s := After(acts);
    EveryCallStands(acts, c, x);
    Safe(acts);
    assert ClientOk(s, c, s.clients[c]);
    if s.clients[c].calls[x].Answered? {
      var k :| FirstAnswer(acts, c, x, k);
      assert forall j :: FirstAnswer(acts, c, x, j) ==> j == k;
    }
  }

  /** A call that has not returned has been on record ever since it was made. */
  lemma {:induction false} WasCalled(acts: seq<Action>, k: nat, c: nat, x: nat)
    requires Legal(acts) && k <= |acts| && Legal(acts[..k])
    requires c in After(acts).clients && x in After(acts).clients[c].calls
    requires (c, x) in After(acts[..k]).packed
    ensures c in After(acts[..k]).clients && x in After(acts[..k]).clients[c].calls
    decreases |acts|
  {
    if k == |acts| {
      assert acts[..k] == acts;
    } else {
      var n := |acts| - 1;
      var most := acts[..n];
      assert most[..k] == acts[..k];
      Safe(most);
      PackedStays(most, k);
      CallsAreBelowNext(After(most), c);
      CallStep(After(most), acts[n], c, x);
      CallIsFresh(After(most), c);
      WasCalled(most, k, c, x);
    }
  }

  lemma {:induction false} PackedStays(acts: seq<Action>, k: nat)
    requires Legal(acts) && k <= |acts| && Legal(acts[..k])
    ensures After(acts[..k]).packed.Keys <= After(acts).packed.Keys
    decreases |acts|
  {
    if k == |acts| {
      assert acts[..k] == acts;
    } else {
      var most := acts[..|acts| - 1];
      assert most[..k] == acts[..k];
      PackedStays(most, k);
      StepKeepsPackedKeys(After(most), acts[|acts| - 1]);
    }
  }

  /** The answer found its caller waiting. */
  lemma AnswerFoundItWaiting(acts: seq<Action>, c: nat, x: nat, k: nat)
    requires Legal(acts) && FirstAnswer(acts, c, x, k) && Legal(acts[..k])
    requires c in After(acts).clients && x in After(acts).clients[c].calls
    requires (c, x) in After(acts[..k]).packed
    ensures var s := After(acts[..k]);
            c in s.clients && x in s.clients[c].calls && s.clients[c].calls[x].Waiting?
  {
    WasCalled(acts, k, c, x);
    EveryCallStands(acts[..k], c, x);
    assert NeverAnswered(acts[..k], c, x);
  }

  /** A caller that is told ret >= 0 was answered at some step k of the run; by that step
      its request had run exactly once, with the very result that the caller is told. */
  lemma SuccessWasExecuted(acts: seq<Action>, c: nat, x: nat) returns (k: nat, i: nat)
    requires Legal(acts) && Enabled(After(acts), Return(c, x))
    requires C.Outcome(After(acts).clients[c].calls[x]).ret >= 0
    ensures FirstAnswer(acts, c, x, k) && Legal(acts[..k + 1])
    ensures OnlyExecution(After(acts[..k + 1]), c, x, i)
    ensures HasResult(After(acts[..k + 1]).runs[i], C.Outcome(After(acts).clients[c].calls[x]))
  {
    EveryCallStands(acts, c, x);
    k :| FirstAnswer(acts, c, x, k);
    StepOfRun(acts, k);
    Safe(acts[..k]);
    AnswerFoundItWaiting(acts, c, x, k);
    ReturnExactly(acts, c, x);
    i := TheOneExecution(acts[..k], acts[k].p);
  }
}
