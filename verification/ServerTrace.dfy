/** What one server instance's reply window does over a whole run, for arbitrary
    clients: no assumption is made on the headers that arrive. */
module ServerTrace {
  import opened Sets
  import opened ReplySpec

  /** The two critical sections that touch the window. */
  datatype Event<R> =
    | Deliver(clt: nat, xid: nat, rep: nat)
    | AddReply(clt: nat, xid: nat, reply: R)

  type Window<R> = map<nat, Entries<R>>

  ghost function Step<R>(w: Window<R>, e: Event<R>): Window<R> {
    match e
    case Deliver(c, x, r) => w[c := Admit(For(w, c), x, r)]
    case AddReply(c, x, reply) => w[c := Record(For(w, c), x, reply)]
  }

  ghost function WindowAfter<R>(trace: seq<Event<R>>): Window<R> {
    if trace == [] then map[] else Step(WindowAfter(trace[..|trace| - 1]), trace[|trace| - 1])
  }

  /** e is a header of client c that is not answered FORGOTTEN. */
  ghost predicate Accepts<R>(e: Event<R>, c: nat) {
    e.Deliver? && e.clt == c && e.rep < e.xid
  }

  ghost predicate AcceptsXid<R>(e: Event<R>, c: nat, x: nat) {
    Accepts(e, c) && e.xid == x
  }

  /** An accepted header of c that acknowledges everything up to and including x. */
  ghost predicate Acknowledges<R>(e: Event<R>, c: nat, x: nat) {
    Accepts(e, c) && e.rep > x
  }

  ghost function VerdictAt<R>(trace: seq<Event<R>>, j: nat): Verdict<R>
    requires j < |trace| && trace[j].Deliver?
  {
    Judge(For(WindowAfter(trace[..j]), trace[j].clt), trace[j].xid, trace[j].rep)
  }

  /** x was accepted at i and nothing accepted since acknowledges it. */
  ghost predicate UnacknowledgedSince<R>(trace: seq<Event<R>>, c: nat, x: nat, i: int) {
    && 0 <= i < |trace|
    && AcceptsXid(trace[i], c, x)
    && forall k :: i < k < |trace| ==> !Acknowledges(trace[k], c, x)
  }

  ghost predicate Live<R>(trace: seq<Event<R>>, c: nat, x: nat) {
    exists i :: UnacknowledgedSince(trace, c, x, i)
  }

  /** The window holds exactly the accepted, not yet acknowledged xids. */
  lemma {:induction false} WindowTracksLive<R>(trace: seq<Event<R>>, c: nat, x: nat)
    ensures x in For(WindowAfter(trace), c) <==> Live(trace, c, x)
  {
    if trace != [] {
      var n := |trace| - 1;
      var pre, e := trace[..n], trace[n];
      WindowTracksLive(pre, c, x);
      if AcceptsXid(e, c, x) {
        assert UnacknowledgedSince(trace, c, x, n);
      } else {
        if Live(pre, c, x) && !Acknowledges(e, c, x) {
          var i :| UnacknowledgedSince(pre, c, x, i);
          assert UnacknowledgedSince(trace, c, x, i);
        }
        if Live(trace, c, x) {
          var i :| UnacknowledgedSince(trace, c, x, i);
          assert i != n;
          assert forall k :: i < k < n ==> pre[k] == trace[k];
          assert UnacknowledgedSince(pre, c, x, i);
          assert !Acknowledges(trace[n], c, x);
        }
      }
    }
  }

  /** Exact law: an accepted request is answered NEW iff every earlier acceptance of
      the same xid is separated from it by an accepted header that acknowledges it. */
  lemma NewExactly<R>(trace: seq<Event<R>>, j: nat)
    requires j < |trace| && trace[j].Deliver? && Accepts(trace[j], trace[j].clt)
    ensures VerdictAt(trace, j) == New <==>
            forall i :: 0 <= i < j && AcceptsXid(trace[i], trace[j].clt, trace[j].xid) ==>
              exists k :: i < k < j && Acknowledges(trace[k], trace[j].clt, trace[j].xid)
  {
    var c, x, pre := trace[j].clt, trace[j].xid, trace[..j];
    WindowTracksLive(pre, c, x);
    if Live(pre, c, x) {
      var i :| UnacknowledgedSince(pre, c, x, i);
      assert AcceptsXid(trace[i], c, x);
      forall k | i < k < j
        ensures !Acknowledges(trace[k], c, x)
      {
        assert pre[k] == trace[k];
      }
    } else {
      forall i | 0 <= i < j && AcceptsXid(trace[i], c, x)
        ensures exists k :: i < k < j && Acknowledges(trace[k], c, x)
      {
        assert pre[i] == trace[i];
        assert !UnacknowledgedSince(pre, c, x, i);
        var k :| i < k < j && Acknowledges(pre[k], c, x);
        assert trace[k] == pre[k];
      }
    }
  }

  ghost predicate AddsReply<R>(e: Event<R>, c: nat, x: nat) {
    e.AddReply? && e.clt == c && e.xid == x
  }

  /** x was accepted at i, not acknowledged since, and res at p > i is its last reply. */
  ghost predicate RepliedAt<R>(trace: seq<Event<R>>, c: nat, x: nat, res: R, i: int, p: int) {
    && UnacknowledgedSince(trace, c, x, i)
    && i < p < |trace| && AddsReply(trace[p], c, x) && trace[p].reply == res
    && forall q :: p < q < |trace| ==> !AddsReply(trace[q], c, x)
  }

  ghost predicate RepliedWith<R>(trace: seq<Event<R>>, c: nat, x: nat, res: R) {
    exists i, p :: RepliedAt(trace, c, x, res, i, p)
  }

  /** Another event keeps what is known of x, unless it acknowledges or answers it. */
  lemma RepliedStays<R>(trace: seq<Event<R>>, c: nat, x: nat, res: R)
    requires trace != []
    requires !Acknowledges(trace[|trace| - 1], c, x) && !AddsReply(trace[|trace| - 1], c, x)
    ensures RepliedWith(trace, c, x, res) <==> RepliedWith(trace[..|trace| - 1], c, x, res)
  {
    var pre := trace[..|trace| - 1];
    assert forall k :: 0 <= k < |pre| ==> pre[k] == trace[k];
    if RepliedWith(trace, c, x, res) {
      var i, p :| RepliedAt(trace, c, x, res, i, p);
      assert RepliedAt(pre, c, x, res, i, p);
    }
    if RepliedWith(pre, c, x, res) {
      var i, p :| RepliedAt(pre, c, x, res, i, p);
      assert RepliedAt(trace, c, x, res, i, p);
    }
  }

  /** A reply counts when the request is accepted and not acknowledged. */
  lemma RepliedNow<R>(trace: seq<Event<R>>, c: nat, x: nat, res: R)
    requires trace != [] && AddsReply(trace[|trace| - 1], c, x)
    ensures RepliedWith(trace, c, x, res) <==>
            Live(trace[..|trace| - 1], c, x) && trace[|trace| - 1].reply == res
  {
    var n := |trace| - 1;
    var pre := trace[..n];
    assert forall k :: 0 <= k < n ==> pre[k] == trace[k];
    if RepliedWith(trace, c, x, res) {
      var i, p :| RepliedAt(trace, c, x, res, i, p);
      assert p == n && UnacknowledgedSince(pre, c, x, i);
    }
    if Live(pre, c, x) && trace[n].reply == res {
      var i :| UnacknowledgedSince(pre, c, x, i);
      assert RepliedAt(trace, c, x, res, i, n);
    }
  }

  /** What the window holds for x: the last reply added while x was accepted and not
      acknowledged. */
  lemma {:induction false} StoredExactly<R>(trace: seq<Event<R>>, c: nat, x: nat, res: R)
    ensures x in For(WindowAfter(trace), c) && For(WindowAfter(trace), c)[x] == Stored(res) <==>
            RepliedWith(trace, c, x, res)
  {
    if trace != [] {
      var n := |trace| - 1;
      var pre, e := trace[..n], trace[n];
      StoredExactly(pre, c, x, res);
      WindowTracksLive(pre, c, x);
      WindowTracksLive(trace, c, x);
      if Acknowledges(e, c, x) {
        assert forall i :: UnacknowledgedSince(trace, c, x, i) ==> i == n;
      } else if AddsReply(e, c, x) {
        RepliedNow(trace, c, x, res);
      } else {
        RepliedStays(trace, c, x, res);
      }
    }
  }

  /** Every verdict, exactly: FORGOTTEN iff the header acknowledges its own xid; else NEW
      iff the xid is not accepted and unacknowledged already, DONE with the last reply
      added since if there is one, and INPROGRESS iff there is none. */
  lemma VerdictExactly<R>(trace: seq<Event<R>>, j: nat)
    requires j < |trace| && trace[j].Deliver?
    ensures var c, x, pre, v := trace[j].clt, trace[j].xid, trace[..j], VerdictAt(trace, j);
            && (v == Forgotten <==> x <= trace[j].rep)
            && (x > trace[j].rep ==>
                 && (v == New <==> !Live(pre, c, x))
                 && (forall res :: v == Done(res) <==> RepliedWith(pre, c, x, res))
                 && (v == Busy <==> Live(pre, c, x) && forall res :: !RepliedWith(pre, c, x, res)))
  {
    var c, x, pre, v := trace[j].clt, trace[j].xid, trace[..j], VerdictAt(trace, j);
    WindowTracksLive(pre, c, x);
    if x > trace[j].rep {
      forall res
        ensures v == Done(res) <==> RepliedWith(pre, c, x, res)
      {
        StoredExactly(pre, c, x, res);
      }
      if v.Done? {
        assert RepliedWith(pre, c, x, v.reply);
      }
    }
  }

  ghost predicate NewAt<R>(trace: seq<Event<R>>, c: nat, x: nat, j: int) {
    0 <= j < |trace| && AcceptsXid(trace[j], c, x) && VerdictAt(trace, j) == New
  }

  /** The handler of (c, x) is entered at most once in the run. */
  ghost predicate AtMostOnce<R>(trace: seq<Event<R>>, c: nat, x: nat) {
    forall i, j :: NewAt(trace, c, x, i) && NewAt(trace, c, x, j) ==> i == j
  }

  /** At i, k, j: x is accepted, then acknowledged by an accepted header, then
      a stale copy of x is delivered and accepted. */
  ghost predicate LateDuplicate<R>(trace: seq<Event<R>>, c: nat, x: nat, i: int, k: int, j: int) {
    && 0 <= i < k < j < |trace|
    && AcceptsXid(trace[i], c, x) && Acknowledges(trace[k], c, x) && AcceptsXid(trace[j], c, x)
  }

  /** The first acceptance of x at or after `from`. */
  lemma FirstAcceptance<R>(trace: seq<Event<R>>, c: nat, x: nat, from: nat, j: nat) returns (q: nat)
    requires from <= j < |trace| && AcceptsXid(trace[j], c, x)
    ensures from <= q <= j && AcceptsXid(trace[q], c, x)
    ensures forall i :: from <= i < q ==> !AcceptsXid(trace[i], c, x)
  {
    q := from;
    while !AcceptsXid(trace[q], c, x)
      invariant from <= q <= j
      decreases j - q
      invariant forall i :: from <= i < q ==> !AcceptsXid(trace[i], c, x)
    {
      q := q + 1;
    }
  }

  /** At-most-once for the whole run holds exactly when no acknowledged request is
      delivered again. */
  lemma AtMostOnceExactly<R>(trace: seq<Event<R>>, c: nat, x: nat)
    ensures AtMostOnce(trace, c, x) <==> !exists i, k, j :: LateDuplicate(trace, c, x, i, k, j)
  {
    if !AtMostOnce(trace, c, x) {
      var a, b :| NewAt(trace, c, x, a) && NewAt(trace, c, x, b) && a < b;
      NewExactly(trace, b);
      var k :| a < k < b && Acknowledges(trace[k], c, x);
      assert LateDuplicate(trace, c, x, a, k, b);
    }
    if i, k, j :| LateDuplicate(trace, c, x, i, k, j) {
      var p := FirstAcceptance(trace, c, x, 0, i);
      NewExactly(trace, p);
      var q := FirstAcceptance(trace, c, x, k, j);
      assert !AcceptsXid(trace[k], c, x);
      NewExactly(trace, q);
      assert NewAt(trace, c, x, p) && NewAt(trace, c, x, q) && p < q;
    }
  }

  /** A late duplicate is possible with headers a client really sends: xids 1, 2, 3
      with acknowledgements 0, 1, 2, then the first request once more. */
  lemma StaleDuplicateRunsAgain<R>(r: R)
    ensures !AtMostOnce<R>([Deliver(7, 1, 0), AddReply(7, 1, r), Deliver(7, 2, 1),
                            Deliver(7, 3, 2), Deliver(7, 1, 0)], 7, 1)
  {
    var trace: seq<Event<R>> := [Deliver(7, 1, 0), AddReply(7, 1, r), Deliver(7, 2, 1),
                                 Deliver(7, 3, 2), Deliver(7, 1, 0)];
    AtMostOnceExactly(trace, 7, 1);
    assert LateDuplicate(trace, 7, 1, 0, 3, 4);
  }

  /** M bounds every xid accepted from c. */
  ghost predicate AcceptedUpTo<R>(trace: seq<Event<R>>, c: nat, m: nat) {
    forall i :: 0 <= i < |trace| && Accepts(trace[i], c) ==> trace[i].xid <= m
  }

  ghost function Interval(lo: nat, hi: int): (s: set<nat>)
    requires lo <= hi + 1
    ensures forall x: nat :: x in s <==> lo <= x <= hi
    ensures |s| == hi - lo + 1
    decreases hi - lo + 1
  {
    if lo == hi + 1 then {} else Interval(lo, hi - 1) + {hi}
  }

  /** After an accepted header with acknowledgement r the client's entries lie in
      [r, M], so there are at most M - r + 1 of them. */
  lemma WindowIsBounded<R>(trace: seq<Event<R>>, c: nat, m: nat)
    requires trace != [] && Accepts(trace[|trace| - 1], c)
    requires AcceptedUpTo(trace, c, m)
    ensures var r := trace[|trace| - 1].rep;
            && r <= m
            && For(WindowAfter(trace), c).Keys <= Interval(r, m)
            && |For(WindowAfter(trace), c)| <= m - r + 1
  {
    var n, r := |trace| - 1, trace[|trace| - 1].rep;
    var keys := For(WindowAfter(trace), c).Keys;
    forall x | x in keys
      ensures x in Interval(r, m)
    {
      WindowTracksLive(trace, c, x);
      var i :| UnacknowledgedSince(trace, c, x, i);
      assert i < n ==> !Acknowledges(trace[n], c, x);
    }
    SubsetSize(keys, Interval(r, m));
  }
}
