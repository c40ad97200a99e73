/** Messages and constants shared by the two ends of an RPC. */
module RpcTypes {

  /** Handler number reserved for bind. */
  const BIND: nat := 1

  const TIMEOUT_FAILURE := -1
  const UNMARSHAL_ARGS_FAILURE := -2
  const ATMOSTONCE_FAILURE := -4
  const OLDSRV_FAILURE := -5

  /** `req_header` and the marshalled arguments. */
  datatype Request = Request(clt: nat, xid: nat, proc: nat, args: seq<int>, srv: nat, rep: nat)

  /** A handler's return code and its result value. */
  datatype Result = Result(ret: int, val: int)

  /** A reply travels on a connection of the client it answers, here clt. */
  datatype Reply = Reply(clt: nat, xid: nat, res: Result)
}

/** The client end as a value; `completed` is the set of xids that its completion
    window stands for. */
module ClientSpec {
  import opened RpcTypes
  import opened XidWindow

  /** The entry of `calls_`: a caller blocked in `call1`. */
  datatype Caller = Waiting | Answered(res: Result)

  datatype Client = Client(nonce: nat, bound: bool, srv: nat, next: nat,
                           calls: map<nat, Caller>, completed: set<nat>)

  function Fresh(nonce: nat): Client {
    Client(nonce, false, 0, 1, map[], {})
  }

  /** Bind goes first, and once. */
  predicate MayCall(cl: Client, proc: nat) {
    proc == BIND <==> !cl.bound
  }

  /** The header packed under `m_`; retransmissions send the same bytes. */
  ghost function Packed(cl: Client, proc: nat, args: seq<int>): Request {
    Request(cl.nonce, cl.next, proc, args, cl.srv, Front(cl.completed))
  }

  function StartCall(cl: Client): Client {
    cl.(next := cl.next + 1, calls := cl.calls[cl.next := Waiting])
  }

  /** A reply completes its xid whether or not anyone still waits for it; only the
      first reply reaches the caller. */
  function Receive(cl: Client, xid: nat, res: Result): Client {
    var cl' := cl.(completed := cl.completed + {xid});
    if xid in cl.calls && cl.calls[xid].Waiting?
    then cl'.(calls := cl.calls[xid := Answered(res)])
    else cl'
  }

  function Finish(cl: Client, xid: nat): Client {
    cl.(calls := cl.calls - {xid}, completed := cl.completed + {xid})
  }

  function Outcome(caller: Caller): Result {
    match caller
    case Waiting => Result(TIMEOUT_FAILURE, 0)
    case Answered(res) => res
  }

  function Bind(cl: Client, srv: nat): Client {
    cl.(bound := true, srv := srv)
  }
}

/** `rpcc`: each method is one critical section of `m_`. */
module Rpcc {
  import opened RpcTypes
  import opened XidWindow
  import opened ClientSpec

  class Rpcc {
    const nonce: nat
    var srv: nat
    var bound: bool
    var xid: nat
    var calls: map<nat, Caller>
    var window: seq<nat>
    ghost var completed: set<nat>

    ghost predicate Valid()
      reads this
    {
      Represents(window, completed)
    }

    ghost function View(): Client
      reads this
    {
      Client(nonce, bound, srv, xid, calls, completed)
    }

    constructor (nonce: nat)
      ensures Valid() && View() == Fresh(nonce)
    {
      this.nonce := nonce;
      srv, bound, xid, calls := 0, false, 1, map[];
      window, completed := [0], {};
    }

    /** The head of `rpcc::call1`: the packed request, or nothing when the call is
        refused with bind_failure. */
    method StartCall(proc: nat, args: seq<int>) returns (ok: bool, q: Request)
      requires Valid()
      modifies this
      ensures Valid()
      ensures ok <==> MayCall(old(View()), proc)
      ensures ok ==> q == Packed(old(View()), proc, args) && View() == ClientSpec.StartCall(old(View()))
      ensures !ok ==> View() == old(View())
    {
      if (proc != BIND && !bound) || (proc == BIND && bound) {
        return false, Request(nonce, 0, proc, args, srv, 0);
      }
      FrontIsUnique(completed, window[0]);
      q := Request(nonce, xid, proc, args, srv, window[0]);
      calls := calls[xid := Waiting];
      xid := xid + 1;
      ok := true;
    }

    /** `rpcc::got_pdu` after the header is unpacked. */
    method GotPdu(x: nat, res: Result)
      requires Valid()
      modifies this
      ensures Valid() && View() == Receive(old(View()), x, res)
    {
      UpdateXidRep(x);
      if x !in calls {
        return;
      }
      if calls[x].Waiting? {
        calls := calls[x := Answered(res)];
      }
    }

    /** The tail of `rpcc::call1`: the caller leaves, answered or timed out. */
    method FinishCall(x: nat) returns (res: Result)
      requires Valid() && x in calls
      modifies this
      ensures Valid() && View() == Finish(old(View()), x)
      ensures res == Outcome(old(calls)[x])
    {
      res := Outcome(calls[x]);
      calls := calls - {x};
      UpdateXidRep(x);
    }

    /** The tail of `rpcc::bind` when the bind call returned 0. */
    method FinishBind(r: nat)
      requires Valid()
      modifies this
      ensures Valid() && View() == Bind(old(View()), r)
    {
      bound, srv := true, r;
    }

    /** `rpcc::update_xid_rep`. */
    method UpdateXidRep(x: nat)
      requires Valid()
      modifies this`window, this`completed
      ensures Valid()
      ensures completed == old(completed) + {x}
    {
      if x <= window[0] {
        completed := completed + {x};
        return;
      }
      Insert(x);
      Compress();
    }

    /** The first loop: place x before the first larger value. */
    method Insert(x: nat)
      requires Valid() && window[0] < x
      modifies this`window, this`completed
      ensures Uncompressed(window, completed)
      ensures completed == old(completed) + {x}
    {
      var it := 0;
      while it < |window|
        invariant 0 <= it <= |window|
        invariant forall k :: 0 <= k < it ==> window[k] <= x
      {
        if window[it] > x {
          InsertKeepsUncompressed(window, completed, it, x);
          window := window[..it] + [x] + window[it..];
          completed := completed + {x};
          return;
        }
        it := it + 1;
      }
      InsertKeepsUncompressed(window, completed, |window|, x);
      assert window[..|window|] + [x] + window[|window|..] == window + [x];
      window := window + [x];
      completed := completed + {x};
    }

    /** The second loop: drop the front while its successor is present.  `it` is the
        iterator's index; popping the front moves it down by one.  Whenever the
        front is popped `it` is at least 1, so the iterator is never the popped node. */
    method Compress()
      requires Uncompressed(window, completed)
      modifies this`window
      ensures Represents(window, completed)
    {
      var it := 1;
      while it < |window|
        invariant Uncompressed(window, completed)
        invariant 0 < it <= |window|
        invariant forall k :: 0 <= k < it ==> window[k] != window[0] + 1
        decreases |window| - it
      {
        ghost var togo := |window| - it;
        while window[0] + 1 == window[it]
          invariant Uncompressed(window, completed)
          invariant 0 <= it < |window|
          invariant |window| - it == togo
          invariant forall k :: 0 <= k < it ==> window[k] != window[0] + 1
          decreases it
        {
          assert 1 <= it;
          PopKeepsUncompressed(window, completed, it);
          window := window[1..];
          it := it - 1;
        }
        it := it + 1;
      }
    }
  }
}
