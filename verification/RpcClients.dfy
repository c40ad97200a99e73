/** What a client's record says about the run so far, and the headers it packs. */
module RpcClients {
  import opened RpcTypes
  import opened XidWindow
  import opened RpcProtocol
  import opened RpcSafety
  import opened RpcTheorems
  import opened RpcAnswers
  import C = ClientSpec

  /** The action completes (c, x): it is answered, or its caller leaves. */
  ghost predicate Completes(a: Action, c: nat, x: nat) {
    Answers(a, c, x) || a == Return(c, x)
  }

  ghost predicate Completed(acts: seq<Action>, c: nat, x: nat) {
    exists k :: 0 <= k < |acts| && Completes(acts[k], c, x)
  }

  ghost predicate Left(acts: seq<Action>, c: nat, x: nat) {
    Return(c, x) in acts
  }

  lemma CompletedStep(acts: seq<Action>, c: nat, x: nat)
    requires acts != []
    ensures var n := |acts| - 1;
            Completed(acts, c, x) <==> Completed(acts[..n], c, x) || Completes(acts[n], c, x)
  {
    var n := |acts| - 1;
    if Completed(acts[..n], c, x) {
      var k :| 0 <= k < n && Completes(acts[..n][k], c, x);
      assert Completes(acts[k], c, x);
    }
    if Completed(acts, c, x) && !Completes(acts[n], c, x) {
      var k :| 0 <= k < |acts| && Completes(acts[k], c, x);
      assert Completes(acts[..n][k], c, x);
    }
  }

  lemma LeftStep(acts: seq<Action>, c: nat, x: nat)
    requires acts != []
    ensures var n := |acts| - 1; Left(acts, c, x) <==> Left(acts[..n], c, x) || acts[n] == Return(c, x)
  {
    assert acts == acts[..|acts| - 1] + [acts[|acts| - 1]];
  }

  /** How an action changes a client's record. */
  ghost predicate RecordAfter(s: State, a: Action, s': State, c: nat)
    requires c in s'.clients
  {
    var cl' := s'.clients[c];
    if c in s.clients then
      var cl := s.clients[c];
      && cl'.next == (if a.Call? && a.clt == c then cl.next + 1 else cl.next)
      && (forall x :: x in cl'.completed <==> x in cl.completed || Completes(a, c, x))
      && (forall x :: x in cl'.calls <==>
            (x in cl.calls || (a.Call? && a.clt == c && x == cl.next)) && a != Return(c, x))
    else
      cl'.next == 1 && cl'.completed == {} && cl'.calls == map[]
  }

  lemma RecordStep(s: State, a: Action, c: nat)
    requires Enabled(s, a) && c in Do(s, a).clients
    ensures RecordAfter(s, a, Do(s, a), c)
  {
    match a
    case Connect(_) =>
    case Call(_, _, _) =>
    case Transmit(_, _) =>
    case GotReply(_) =>
    case Return(d, x) => ReturnStep(s, d, x, c);
    case StoreBind(_, _) =>
    case _ => ServerActionFrame(s, a);
  }

  lemma ReturnStep(s: State, d: nat, x: nat, c: nat)
    requires Enabled(s, Return(d, x)) && c in Do(s, Return(d, x)).clients
    ensures RecordAfter(s, Return(d, x), Do(s, Return(d, x)), c)
  {
    assert Returns(s, d, x).clients == s.clients[d := C.Finish(s.clients[d], x)];
  }

  /** Only a client's own calls complete. */
  lemma {:induction false} CompletedHasClient(acts: seq<Action>, c: nat, x: nat)
    requires Legal(acts) && Completed(acts, c, x)
    ensures c in After(acts).clients
  {
    var n := |acts| - 1;
    CompletedStep(acts, c, x);
    if Completed(acts[..n], c, x) {
      CompletedHasClient(acts[..n], c, x);
    }
    ClientStepGrows(After(acts[..n]), acts[n], c);
  }

  /** `completed` is exactly the set of xids that were answered or whose caller left. */
  lemma {:induction false} CompletedExactly(acts: seq<Action>, c: nat, x: nat)
    requires Legal(acts) && c in After(acts).clients
    ensures x in After(acts).clients[c].completed <==> Completed(acts, c, x)
  {
    if acts != [] {
      var n := |acts| - 1;
      var s := After(acts[..n]);
      RecordStep(s, acts[n], c);
      CompletedStep(acts, c, x);
      if c in s.clients {
        CompletedExactly(acts[..n], c, x);
      } else if Completed(acts[..n], c, x) {
        CompletedHasClient(acts[..n], c, x);
      }
    }
  }

  lemma LeavingIsCompleting(acts: seq<Action>, c: nat, x: nat)
    requires Left(acts, c, x)
    ensures Completed(acts, c, x)
  {
    var k :| 0 <= k < |acts| && acts[k] == Return(c, x);
    assert Completes(acts[k], c, x);
  }

  /** `calls_` holds exactly the calls made whose callers have not left: xids are given
      out consecutively from 1. */
  lemma {:induction false} CallsExactly(acts: seq<Action>, c: nat, x: nat)
    requires Legal(acts) && c in After(acts).clients
    ensures var cl := After(acts).clients[c];
            x in cl.calls <==> 1 <= x < cl.next && !Left(acts, c, x)
  {
    if acts != [] {
      var n := |acts| - 1;
      var s := After(acts[..n]);
      RecordStep(s, acts[n], c);
      LeftStep(acts, c, x);
      if c in s.clients {
        CallsExactly(acts[..n], c, x);
        NextHasNotLeft(acts[..n], c);
      } else if Left(acts[..n], c, x) {
        LeavingIsCompleting(acts[..n], c, x);
        CompletedHasClient(acts[..n], c, x);
      }
    }
  }

  lemma NextHasNotLeft(acts: seq<Action>, c: nat)
    requires Legal(acts) && c in After(acts).clients
    ensures 1 <= After(acts).clients[c].next && !Left(acts, c, After(acts).clients[c].next)
  {
    var s := After(acts);
    Safe(acts);
    assert ClientOk(s, c, s.clients[c]);
    if Left(acts, c, s.clients[c].next) {
      LeavingIsCompleting(acts, c, s.clients[c].next);
      CompletedExactly(acts, c, s.clients[c].next);
    }
  }

  /** So a call returns once. */
  lemma ReturnsOnce(acts: seq<Action>, c: nat, x: nat)
    requires Legal(acts) && Enabled(After(acts), Return(c, x))
    ensures !Left(acts, c, x)
  {
    CallsExactly(acts, c, x);
  }

  /** The header of a new call: it acknowledges all xids before the first that was
      neither answered nor abandoned, and it names a server instance unless it is bind. */
  lemma HeaderExactly(acts: seq<Action>, c: nat, proc: nat, args: seq<int>)
    requires Legal(acts) && Enabled(After(acts), Call(c, proc, args))
    ensures var s, s' := After(acts), Do(After(acts), Call(c, proc, args));
            var x := s.clients[c].next;
            && (c, x) !in s.packed && (c, x) in s'.packed
            && var q := s'.packed[(c, x)];
            && q.clt == c && q.xid == x && q.proc == proc && q.args == args
            && (q.srv == 0 <==> proc == BIND)
            && (forall y :: 1 <= y <= q.rep ==> Completed(acts, c, y))
            && !Completed(acts, c, q.rep + 1)
  {
    var s := After(acts);
    Safe(acts);
    PackedHeader(s, c, proc, args);
    var f := Front(s.clients[c].completed);
    forall y | 1 <= y <= f
      ensures Completed(acts, c, y)
    {
      CompletedExactly(acts, c, y);
    }
    CompletedExactly(acts, c, f + 1);
  }

  lemma PackedHeader(s: State, c: nat, proc: nat, args: seq<int>)
    requires PackedOk(s) && ClientsOk(s) && Enabled(s, Call(c, proc, args))
    ensures var x := s.clients[c].next;
            && (c, x) !in s.packed && (c, x) in Do(s, Call(c, proc, args)).packed
            && var q := Do(s, Call(c, proc, args)).packed[(c, x)];
            && q.clt == c && q.xid == x && q.proc == proc && q.args == args
            && (q.srv == 0 <==> proc == BIND) && q.rep == Front(s.clients[c].completed)
  {
    CallIsFresh(s, c);
    assert ClientOk(s, c, s.clients[c]);
  }
}
