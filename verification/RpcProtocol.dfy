/** At-most-once RPC: any number of clients and a server that may restart, over a
    network that loses, duplicates, delays and reorders.  Every action is one
    critical section of the source, so a run is any interleaving of them. */
module RpcProtocol {
  import opened RpcTypes
  import opened ReplySpec
  import C = ClientSpec

  /** How far a dispatch thread that got NEW has come. */
  datatype Phase = Accepted | Running | Returned(res: Result) | Saved(res: Result)

  /** One execution of a handler, in the server instance that accepted it. */
  datatype Run = Run(inst: nat, req: Request, phase: Phase)

  /** `packed`, `runs` of old instances, `acked`, `late` and `used` are history.
      `reqs` and `reps` hold every message ever sent: a message may be delivered
      never, late, out of order or any number of times. */
  datatype State = State(
    inst: nat,                           // nonce of the running server; 0 before the first boot
    used: set<nat>,                      // nonces of all instances so far
    window: map<nat, Entries<Result>>,   // reply_window_
    runs: seq<Run>,
    acked: map<nat, nat>,                // per client, the largest xid_rep accepted by this instance
    late: set<(nat, nat, nat)>,          // (instance, client, xid) accepted below that
    clients: map<nat, C.Client>,
    packed: map<(nat, nat), Request>,    // the request of each (client, xid)
    binds: map<(nat, nat), nat>,         // server nonces returned to bind, not yet stored
    reqs: set<Request>,
    reps: set<Reply>)

  datatype Action =
    | Boot(nonce: nat)
    | Connect(clt: nat)
    | Call(clt: nat, proc: nat, args: seq<int>)
    | Transmit(clt: nat, xid: nat)
    | GotReply(p: Reply)
    | Return(clt: nat, xid: nat)
    | StoreBind(clt: nat, xid: nat)
    | Deliver(q: Request)
    | StartHandler(i: nat)
    | FinishHandler(i: nat, res: Result)
    | Save(i: nat)
    | Send(i: nat)

  const Init := State(0, {}, map[], [], map[], {}, map[], map[], map[], {}, {})

  ghost predicate CanRun(s: State, i: nat) {
    i < |s.runs| && s.runs[i].inst == s.inst
  }

  /** What a handler can return; the bind handler returns the instance's nonce. */
  ghost predicate HandlerResult(r: Run, res: Result) {
    && (res.ret >= 0 || res.ret == UNMARSHAL_ARGS_FAILURE)
    && (r.req.proc == BIND && res.ret >= 0 ==> res == Result(0, r.inst))
  }

  ghost predicate Enabled(s: State, a: Action) {
    match a
    case Boot(n) => n != 0 && n !in s.used
    case Connect(c) => c != 0 && c !in s.clients
    case Call(c, proc, args) => c in s.clients && C.MayCall(s.clients[c], proc)
    case Transmit(c, x) => c in s.clients && x in s.clients[c].calls && (c, x) in s.packed
    case GotReply(p) => p in s.reps && p.clt in s.clients
    case Return(c, x) => c in s.clients && x in s.clients[c].calls && (c, x) in s.packed
    case StoreBind(c, x) => (c, x) in s.binds && c in s.clients
    case Deliver(q) => q in s.reqs && s.inst != 0
    case StartHandler(i) => CanRun(s, i) && s.runs[i].phase == Accepted
    case FinishHandler(i, res) =>
      CanRun(s, i) && s.runs[i].phase == Running && HandlerResult(s.runs[i], res)
    case Save(i) => CanRun(s, i) && s.runs[i].phase.Returned?
    case Send(i) => CanRun(s, i) && s.runs[i].phase.Saved?
  }

  ghost function WithClient(s: State, c: nat, cl: C.Client): State {
    s.(clients := s.clients[c := cl])
  }

  ghost function Advance(s: State, i: nat, phase: Phase): State
    requires i < |s.runs|
  {
    s.(runs := s.runs[i := s.runs[i].(phase := phase)])
  }

  ghost function Acked(s: State, c: nat): nat {
    if c in s.acked then s.acked[c] else 0
  }

  ghost function Max(a: nat, b: nat): nat {
    if a < b then b else a
  }

  /** The window after the header is judged, and its acknowledgement on record. */
  ghost function Admitted(s: State, q: Request): State {
    if q.xid <= q.rep then s
    else s.(window := s.window[q.clt := Admit(For(s.window, q.clt), q.xid, q.rep)],
            acked := s.acked[q.clt := Max(Acked(s, q.clt), q.rep)],
            late := if q.xid < Acked(s, q.clt) then s.late + {(s.inst, q.clt, q.xid)} else s.late)
  }

  /** `rpcs::dispatch` up to the handler. */
  ghost function Dispatch(s: State, q: Request): State {
    if q.srv != 0 && q.srv != s.inst then
      s.(reps := s.reps + {Reply(q.clt, q.xid, Result(OLDSRV_FAILURE, 0))})
    else
      var s' := Admitted(s, q);
      match Judge(For(s.window, q.clt), q.xid, q.rep)
      case New => s'.(runs := s.runs + [Run(s.inst, q, Accepted)])
      case Busy => s'
      case Done(res) => s'.(reps := s.reps + {Reply(q.clt, q.xid, res)})
      case Forgotten => s'.(reps := s.reps + {Reply(q.clt, q.xid, Result(ATMOSTONCE_FAILURE, 0))})
  }

  /** `call1` returns; a bind that returned 0 still has to store the nonce. */
  ghost function Returns(s: State, c: nat, x: nat): State
    requires Enabled(s, Return(c, x))
  {
    var res := C.Outcome(s.clients[c].calls[x]);
    var s' := WithClient(s, c, C.Finish(s.clients[c], x));
    if s.packed[(c, x)].proc == BIND && res.ret == 0 && res.val >= 0
    then s'.(binds := s.binds[(c, x) := res.val])
    else s'
  }

  ghost function Do(s: State, a: Action): State
    requires Enabled(s, a)
  {
    match a
    case Boot(n) => s.(inst := n, used := s.used + {n}, window := map[], acked := map[])
    case Connect(c) => WithClient(s, c, C.Fresh(c))
    case Call(c, proc, args) =>
      var q := C.Packed(s.clients[c], proc, args);
      WithClient(s, c, C.StartCall(s.clients[c])).(packed := s.packed[(c, q.xid) := q])
    case Transmit(c, x) => s.(reqs := s.reqs + {s.packed[(c, x)]})
    case GotReply(p) => WithClient(s, p.clt, C.Receive(s.clients[p.clt], p.xid, p.res))
    case Return(c, x) => Returns(s, c, x)
    case StoreBind(c, x) =>
      WithClient(s, c, C.Bind(s.clients[c], s.binds[(c, x)])).(binds := s.binds - {(c, x)})
    case Deliver(q) => Dispatch(s, q)
    case StartHandler(i) => Advance(s, i, Running)
    case FinishHandler(i, res) => Advance(s, i, Returned(res))
    case Save(i) =>
      var r := s.runs[i];
      var w := s.window[r.req.clt := Record(For(s.window, r.req.clt), r.req.xid, r.phase.res)];
      Advance(s, i, Saved(r.phase.res)).(window := w)
    case Send(i) =>
      var r := s.runs[i];
      s.(reps := s.reps + {Reply(r.req.clt, r.req.xid, r.phase.res)})
  }

  /** A run from the initial state, and the state it leads to. */
  ghost predicate Legal(acts: seq<Action>)
    decreases |acts|, 0
  {
    acts == [] ||
    (Legal(acts[..|acts| - 1]) && Enabled(After(acts[..|acts| - 1]), acts[|acts| - 1]))
  }

  ghost function After(acts: seq<Action>): State
    requires Legal(acts)
    decreases |acts|, 1
  {
    if acts == [] then Init else Do(After(acts[..|acts| - 1]), acts[|acts| - 1])
  }
}
