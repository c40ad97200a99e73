/** Exactly when a request that was answered runs again. */
module RpcRepeats {
  import opened RpcTypes
  import opened XidWindow
  import opened ReplySpec
  import opened RpcProtocol
  import opened RpcSafety
  import opened RpcTheorems
  import opened RpcAnswers
  import C = ClientSpec

  /** An entry below the acknowledgement on record was accepted late. */
  ghost predicate LowEntriesAreLate(s: State) {
    forall c: nat, x: nat :: x in For(s.window, c) && x < Acked(s, c) ==> (s.inst, c, x) in s.late
  }

  lemma AdmittedKeepsLow(s: State, q: Request)
    requires LowEntriesAreLate(s)
    ensures LowEntriesAreLate(Admitted(s, q))
  {
    var s' := Admitted(s, q);
    forall c: nat, x: nat | x in For(s'.window, c) && x < Acked(s', c)
      ensures (s'.inst, c, x) in s'.late
    {
      if c == q.clt && x != q.xid {
        assert x in For(s.window, c);
      }
    }
  }

  lemma DispatchKeepsLow(s: State, q: Request)
    requires LowEntriesAreLate(s)
    ensures LowEntriesAreLate(Dispatch(s, q))
  {
    DispatchCases(s, q);
    AdmittedKeepsLow(s, q);
  }

  lemma SaveKeepsLow(s: State, i: nat)
    requires LowEntriesAreLate(s) && Enabled(s, Save(i))
    ensures LowEntriesAreLate(Do(s, Save(i)))
  {
    var s' := Do(s, Save(i));
    forall c: nat
      ensures For(s'.window, c).Keys == For(s.window, c).Keys && Acked(s', c) == Acked(s, c)
    {}
  }

  lemma StepKeepsLow(s: State, a: Action)
    requires LowEntriesAreLate(s) && Enabled(s, a)
    ensures LowEntriesAreLate(Do(s, a))
  {
    match a
    case Boot(_) =>
    case Deliver(q) => DispatchKeepsLow(s, q);
    case Save(i) => SaveKeepsLow(s, i);
    case StartHandler(_) =>
    case FinishHandler(_, _) =>
    case Send(_) =>
    case _ => ClientActionFrame(s, a);
  }

  lemma {:induction false} LowIsLate(acts: seq<Action>)
    requires Legal(acts)
    ensures LowEntriesAreLate(After(acts))
  {
    if acts != [] {
      LowIsLate(acts[..|acts| - 1]);
      StepKeepsLow(After(acts[..|acts| - 1]), acts[|acts| - 1]);
    }
  }

  /** The action is a late acceptance of (c, x) by this instance. */
  ghost predicate AcceptsLate(s: State, a: Action, c: nat, x: nat) {
    a.Deliver? && a.q.clt == c && a.q.xid == x && a.q.rep < x < Acked(s, c)
  }

  lemma LateStep(s: State, a: Action, n: nat, c: nat, x: nat)
    requires Enabled(s, a) && (n, c, x) in Do(s, a).late && (n, c, x) !in s.late
    ensures AcceptsLate(s, a, c, x) && n == s.inst && (a.q.srv == 0 || a.q.srv == s.inst)
  {
    if a.Connect? || a.Call? || a.Transmit? || a.GotReply? || a.Return? || a.StoreBind? {
      ClientActionFrame(s, a);
    } else if a.Deliver? {
      DispatchLate(s, a.q, n, c, x);
    } else {
      OthersAcceptNothing(s, a);
    }
  }

  lemma OthersAcceptNothing(s: State, a: Action)
    requires Enabled(s, a) && (a.Boot? || a.StartHandler? || a.FinishHandler? || a.Save? || a.Send?)
    ensures Do(s, a).late == s.late
  {}

  lemma DispatchLate(s: State, q: Request, n: nat, c: nat, x: nat)
    requires (n, c, x) in Dispatch(s, q).late && (n, c, x) !in s.late
    ensures n == s.inst && q.clt == c && q.xid == x && q.rep < x < Acked(s, c) && (q.srv == 0 || q.srv == s.inst)
  {
    DispatchCases(s, q);
  }

  /** The first late acceptance finds no entry, and so starts a run. */
  lemma LateMeansAnotherRun(s: State, a: Action, c: nat, x: nat)
    requires LowEntriesAreLate(s) && (s.inst, c, x) !in s.late
    requires Enabled(s, a) && AcceptsLate(s, a, c, x) && (a.q.srv == 0 || a.q.srv == s.inst)
    ensures Do(s, a).runs == s.runs + [Run(s.inst, a.q, Accepted)]
  {
    assert x !in For(s.window, c);
  }

  /** A run keeps its request, its instance and its result. */
  lemma {:induction false} RunStays(before: seq<Action>, after: seq<Action>, i: nat)
    requires Legal(before) && Legal(before + after) && i < |After(before).runs|
    ensures var r, r' := After(before).runs[i], After(before + after).runs;
            && i < |r'| && r'[i].inst == r.inst && r'[i].req == r.req
            && (r.phase.Returned? || r.phase.Saved? ==> HasResult(r'[i], r.phase.res))
    decreases |after|
  {
    if after == [] {
      assert before + after == before;
    } else {
      LastStep(before, after);
      var most := after[..|after| - 1];
      RunStays(before, most, i);
      StepExtends(After(before + most), after[|after| - 1]);
    }
  }

  /** An only execution was the only one before. */
  lemma OnlyBefore(s: State, a: Action, c: nat, x: nat, i: nat)
    requires Enabled(s, a) && OnlyExecution(Do(s, a), c, x, i) && i < |s.runs|
    requires IsBind(Do(s, a), c, x) ==> IsBind(s, c, x)
    ensures OnlyExecution(s, c, x, i)
  {
    var s' := Do(s, a);
    StepExtends(s, a);
    forall j: nat | BothExecute(s, c, x, i, j) && SameScope(s, c, x, i, j)
      ensures j == i
    {
      assert BothExecute(s', c, x, i, j) && SameScope(s', c, x, i, j);
    }
  }

  lemma KeepsBind(s: State, a: Action, c: nat, x: nat)
    requires PackedOk(s) && Enabled(s, a) && (c, x) in s.packed
    ensures IsBind(Do(s, a), c, x) <==> IsBind(s, c, x)
  {
    if a.Call? {
      CallIsFresh(s, a.clt);
    } else if !(a.Return? || a.Connect? || a.Transmit? || a.GotReply? || a.StoreBind?) {
      ServerActionFrame(s, a);
    }
  }

  /** While a request has one run, no copy of it has been accepted late after it. */
  lemma {:induction false} OnlyMeansTimely(before: seq<Action>, after: seq<Action>, c: nat, x: nat, i: nat)
    requires Legal(before) && Legal(before + after) && i < |After(before).runs|
    requires Executes(After(before).runs[i], c, x)
    requires (After(before).runs[i].inst, c, x) !in After(before).late
    requires OnlyExecution(After(before + after), c, x, i)
    ensures (After(before).runs[i].inst, c, x) !in After(before + after).late
    decreases |after|
  {
    if after == [] {
      assert before + after == before;
    } else {
      var most, a := after[..|after| - 1], after[|after| - 1];
      LastStep(before, after);
      RunStays(before, most, i);
      Safe(before + most);
      LowIsLate(before + most);
      OnlyStep(After(before + most), a, c, x, i);
      OnlyMeansTimely(before, most, c, x, i);
      TimelyStep(After(before + most), a, c, x, i);
    }
  }

  lemma OnlyStep(s: State, a: Action, c: nat, x: nat, i: nat)
    requires Inv(s) && Enabled(s, a) && i < |s.runs| && Executes(s.runs[i], c, x)
    requires OnlyExecution(Do(s, a), c, x, i)
    ensures OnlyExecution(s, c, x, i)
  {
    assert RunOk(s, s.runs[i]);
    KeepsBind(s, a, c, x);
    OnlyBefore(s, a, c, x, i);
  }

  lemma TimelyStep(s: State, a: Action, c: nat, x: nat, i: nat)
    requires LowEntriesAreLate(s) && Enabled(s, a) && i < |s.runs| && Executes(s.runs[i], c, x)
    requires (s.runs[i].inst, c, x) !in s.late && OnlyExecution(Do(s, a), c, x, i)
    ensures (s.runs[i].inst, c, x) !in Do(s, a).late
  {
    if (s.runs[i].inst, c, x) in Do(s, a).late {
      LateStep(s, a, s.runs[i].inst, c, x);
      LateMeansAnotherRun(s, a, c, x);
      NotOnly(s, a, c, x, i);
    }
  }

  lemma NotOnly(s: State, a: Action, c: nat, x: nat, i: nat)
    requires Enabled(s, a) && a.Deliver? && a.q.clt == c && a.q.xid == x
    requires Do(s, a).runs == s.runs + [Run(s.inst, a.q, Accepted)]
    requires i < |s.runs| && Executes(s.runs[i], c, x) && s.runs[i].inst == s.inst
    ensures !OnlyExecution(Do(s, a), c, x, i)
  {
    var s' := Do(s, a);
    assert BothExecute(s', c, x, i, |s.runs|) && SameScope(s', c, x, i, |s.runs|);
  }

  lemma TimelyMeansOnly(s: State, c: nat, x: nat, i: nat)
    requires Inv(s) && i < |s.runs| && Executes(s.runs[i], c, x) && (s.runs[i].inst, c, x) !in s.late
    ensures OnlyExecution(s, c, x, i)
  {
    forall j: nat | BothExecute(s, c, x, i, j) && SameScope(s, c, x, i, j)
      ensures j == i
    {
      if !IsBind(s, c, x) {
        OneInstance(s, c, x, i);
        OneInstance(s, c, x, j);
      }
      if j != i {
        RepeatIsLate(s, c, x, i, j);
      }
    }
  }

  /** A call that returns ret >= 0 has run, with the result returned; and that run is the
      only one at the return exactly if its server instance accepted no copy of the
      request late. */
  lemma SuccessRanOnceExactly(acts: seq<Action>, c: nat, x: nat) returns (i: nat)
    requires Legal(acts) && Enabled(After(acts), Return(c, x))
    requires C.Outcome(After(acts).clients[c].calls[x]).ret >= 0
    ensures i < |After(acts).runs| && Executes(After(acts).runs[i], c, x)
    ensures HasResult(After(acts).runs[i], C.Outcome(After(acts).clients[c].calls[x]))
    ensures OnlyExecution(After(acts), c, x, i) <==> (After(acts).runs[i].inst, c, x) !in After(acts).late
  {
    var k;
    k, i := SuccessWasExecuted(acts, c, x);
    var before, after := acts[..k + 1], acts[k + 1..];
    assert acts == before + after;
    RunStays(before, after, i);
    NotLateWhenAnswered(acts, c, x, k, After(before).runs[i].inst);
    Safe(acts);
    if OnlyExecution(After(acts), c, x, i) {
      OnlyMeansTimely(before, after, c, x, i);
    } else if (After(acts).runs[i].inst, c, x) !in After(acts).late {
      TimelyMeansOnly(After(acts), c, x, i);
    }
  }

  /** No copy had been accepted late when the answer came. */
  lemma NotLateWhenAnswered(acts: seq<Action>, c: nat, x: nat, k: nat, n: nat)
    requires Legal(acts) && Enabled(After(acts), Return(c, x)) && FirstAnswer(acts, c, x, k) && Legal(acts[..k + 1])
    ensures (n, c, x) !in After(acts[..k + 1]).late
  {
    StepOfRun(acts, k);
    Safe(acts[..k]);
    AnswerFoundItWaiting(acts, c, x, k);
    WaitingIsUnacknowledged(acts[..k], c, x);
    ClientActionFrame(After(acts[..k]), acts[k]);
  }
}
