/** The reference count of a connection. */
module RefCount {

  class RefCounted {
    var refno: nat
    var dead: bool
    var deleted: bool

    /** A new connection belongs to its creator. */
    constructor ()
      ensures refno == 1 && !dead && !deleted
    {
      refno, dead, deleted := 1, false, false;
    }

    method IncRef()
      requires !deleted
      modifies this`refno
      ensures refno == old(refno) + 1
    {
      refno := refno + 1;
    }

    /** `connection::decref`: the last reference to a dead connection deletes it. */
    method DecRef()
      requires !deleted && refno > 0
      modifies this`refno, this`deleted
      ensures refno == old(refno) - 1
      ensures deleted <==> refno == 0 && dead
    {
      refno := refno - 1;
      if refno == 0 {
        if dead {
          deleted := true;
        }
      }
    }

    /** `connection::closeconn`: true if this call closed it. */
    method CloseConn() returns (closed: bool)
      requires !deleted
      modifies this`dead
      ensures dead && closed == !old(dead)
    {
      closed := !dead;
      dead := true;
    }
  }
}

/** Who holds references to connections, over every interleaving of the acceptor and
    its garbage collection, the poll thread, the dispatch threads with the map of
    latest connections, and client threads that reconnect. */
module ConnLifetime {
  import opened Sets
  import opened Wrappers

  /** One reference.  Leaked ones belong to dispatch threads that answered a request
      for an old server instance and returned without decref. */
  datatype Holder =
    | Acceptor(c: nat)            // the acceptor's conns_ entry
    | Job(t: nat)                 // a queued or running dispatch
    | Latest(clt: nat)            // rpcs' conns_ entry
    | Channel(r: nat)             // rpcc's chan_
    | Caller(t: nat)              // the ch of a call1
    | Leaked(k: nat)

  datatype Conn = Conn(refno: nat, dead: bool, deleted: bool)

  /** `gc`: the connection that process_accept found dead with one reference and is
      about to release. */
  datatype State = State(conns: map<nat, Conn>, hold: map<Holder, nat>, gc: Option<nat>, leaks: nat)

  datatype Action =
    | Accept(c: nat)
    | GcCheck(c: nat)
    | GcRelease
    | GotPdu(t: nat, c: nat)
    | DropJob(t: nat)
    | LeakJob(t: nat)
    | SaveLatest(t: nat, clt: nat)
    | SwitchToLatest(t: nat, clt: nat)
    | Connect(r: nat, made: Option<nat>)
    | UseChannel(t: nat, r: nat)
    | DropCaller(t: nat)
    | CloseChannel(r: nat)
    | CloseAccepted(c: nat)
    | Die(c: nat)

  const Init := State(map[], map[], None, 0)

  ghost predicate Usable(s: State, c: nat) {
    c in s.conns && !s.conns[c].deleted
  }

  ghost function IncRef(s: State, h: Holder, c: nat): State
    requires c in s.conns
  {
    s.(conns := s.conns[c := s.conns[c].(refno := s.conns[c].refno + 1)], hold := s.hold[h := c])
  }

  /** The holder h gives its reference up. */
  ghost function DecRef(s: State, h: Holder): State
    requires h in s.hold && s.hold[h] in s.conns && s.conns[s.hold[h]].refno > 0
  {
    var c := s.hold[h];
    var n := s.conns[c].refno - 1;
    s.(conns := s.conns[c := s.conns[c].(refno := n, deleted := s.conns[c].deleted || (n == 0 && s.conns[c].dead))],
       hold := s.hold - {h})
  }

  ghost function Kill(s: State, c: nat): State
    requires c in s.conns
  {
    s.(conns := s.conns[c := s.conns[c].(dead := true)])
  }

  ghost function NewConn(s: State, h: Holder, c: nat): State {
    s.(conns := s.conns[c := Conn(1, false, false)], hold := s.hold[h := c])
  }

  /** h may be released: it holds a connection with a positive count. */
  ghost predicate Holds(s: State, h: Holder) {
    h in s.hold && s.hold[h] in s.conns && s.conns[s.hold[h]].refno > 0
  }

  ghost predicate DeadChannel(s: State, r: nat) {
    Holds(s, Channel(r)) && s.conns[s.hold[Channel(r)]].dead
  }

  ghost predicate Enabled(s: State, a: Action) {
    match a
    case Accept(c) => c !in s.conns && Acceptor(c) !in s.hold && s.gc == None
    case GcCheck(c) =>
      s.gc == None && Holds(s, Acceptor(c)) && s.hold[Acceptor(c)] == c && s.conns[c].dead && s.conns[c].refno == 1
    case GcRelease => s.gc.Some? && Holds(s, Acceptor(s.gc.value))
    case GotPdu(t, c) => Usable(s, c) && !s.conns[c].dead && Job(t) !in s.hold
    case DropJob(t) => Holds(s, Job(t))
    case LeakJob(t) => Job(t) in s.hold
    case SaveLatest(t, clt) =>
      && Holds(s, Job(t))
      && (Latest(clt) in s.hold && s.hold[Latest(clt)] != s.hold[Job(t)] ==> Holds(s, Latest(clt)))
    case SwitchToLatest(t, clt) =>
      && Holds(s, Job(t)) && s.conns[s.hold[Job(t)]].dead
      && Holds(s, Latest(clt)) && s.hold[Latest(clt)] != s.hold[Job(t)]
    case Connect(r, c) =>
      && (Channel(r) in s.hold ==> DeadChannel(s, r))
      && (c.Some? ==> c.value !in s.conns)
    case UseChannel(t, r) =>
      && Holds(s, Channel(r))
      && (Caller(t) in s.hold ==> Holds(s, Caller(t)))
    case DropCaller(t) => Holds(s, Caller(t))
    case CloseChannel(r) => Holds(s, Channel(r))
    case CloseAccepted(c) => s.gc == None && Holds(s, Acceptor(c)) && s.hold[Acceptor(c)] == c
    case Die(c) => Usable(s, c)
  }

  /** `if (*ch) (*ch)->decref()` and the like. */
  ghost function Drop(s: State, h: Holder): State
    requires h in s.hold ==> Holds(s, h)
  {
    if h in s.hold then DecRef(s, h) else s
  }

  ghost function Do(s: State, a: Action): State
    requires Enabled(s, a)
  {
    match a
    case Accept(c) => NewConn(s, Acceptor(c), c)
    case GcCheck(c) => s.(gc := Some(c))
    case GcRelease => DecRef(s, Acceptor(s.gc.value)).(gc := None)
    case GotPdu(t, c) => IncRef(s, Job(t), c)
    case DropJob(t) => DecRef(s, Job(t))
    case LeakJob(t) => s.(hold := (s.hold - {Job(t)})[Leaked(s.leaks) := s.hold[Job(t)]], leaks := s.leaks + 1)
    case SaveLatest(t, clt) =>
      var c := s.hold[Job(t)];
      if Latest(clt) in s.hold && s.hold[Latest(clt)] == c then s
      else
        IncRef(Drop(s, Latest(clt)), Latest(clt), c)
    case SwitchToLatest(t, clt) => IncRef(DecRef(s, Job(t)), Job(t), s.hold[Latest(clt)])
    case Connect(r, c) =>
      var s' := Drop(s, Channel(r));
      if c.Some? then NewConn(s', Channel(r), c.value) else s'
    case UseChannel(t, r) => IncRef(Drop(s, Caller(t)), Caller(t), s.hold[Channel(r)])
    case DropCaller(t) => DecRef(s, Caller(t))
    case CloseChannel(r) => DecRef(Kill(s, s.hold[Channel(r)]), Channel(r))
    case CloseAccepted(c) => DecRef(Kill(s, c), Acceptor(c))
    case Die(c) => Kill(s, c)
  }

  ghost predicate Legal(acts: seq<Action>)
    decreases |acts|, 0
  {
    acts == [] ||
    (Legal(acts[..|acts| - 1]) && Enabled(After(acts[..|acts| - 1]), acts[|acts| - 1]))
  }

  ghost function After(acts: seq<Action>): State
    requires Legal(acts)
    decreases |acts|, 1
  {
    if acts == [] then Init else Do(After(acts[..|acts| - 1]), acts[|acts| - 1])
  }

  // ---------- The invariant ----------

  ghost function HoldersOf(hold: map<Holder, nat>, c: nat): set<Holder> {
    set h | h in hold && hold[h] == c
  }

  ghost predicate ConnOk(s: State, c: nat) {
    && c in s.conns
    && s.conns[c].refno == |HoldersOf(s.hold, c)|
    && (s.conns[c].deleted ==> s.conns[c].dead && s.conns[c].refno == 0)
  }

  /** Nothing but the acceptor refers to the connection it is about to release. */
  ghost predicate GcOk(s: State) {
    s.gc.Some? ==>
      && s.gc.value in s.conns && s.conns[s.gc.value].dead && s.conns[s.gc.value].refno == 1
      && Acceptor(s.gc.value) in s.hold && s.hold[Acceptor(s.gc.value)] == s.gc.value
  }

  ghost predicate Counted(s: State) {
    && (forall c :: c in s.conns ==> ConnOk(s, c))
    && (forall h :: h in s.hold ==> s.hold[h] in s.conns)
    && (forall h :: h in s.hold && h.Leaked? ==> h.k < s.leaks)
  }

  /** The references that a connection starts with, and keeps while it is alive. */
  ghost predicate IsBase(h: Holder) {
    h.Acceptor? || h.Channel?
  }

  ghost predicate HasBase(hold: map<Holder, nat>, c: nat) {
    exists h :: h in hold && hold[h] == c && IsBase(h)
  }

  /** A live connection has its base; a dead one without references is deleted. */
  ghost predicate BasesOk(s: State) {
    && (forall c :: c in s.conns && !s.conns[c].dead ==> HasBase(s.hold, c))
    && (forall c :: c in s.conns && s.conns[c].dead && s.conns[c].refno == 0 ==> s.conns[c].deleted)
  }

  ghost predicate Inv(s: State) {
    Counted(s) && GcOk(s) && BasesOk(s)
  }

  lemma AddHolder(hold: map<Holder, nat>, h: Holder, c: nat)
    requires h !in hold
    ensures |HoldersOf(hold[h := c], c)| == |HoldersOf(hold, c)| + 1
    ensures forall d :: d != c ==> HoldersOf(hold[h := c], d) == HoldersOf(hold, d)
  {
    assert HoldersOf(hold[h := c], c) == HoldersOf(hold, c) + {h};
  }

  lemma RemoveHolder(hold: map<Holder, nat>, h: Holder)
    requires h in hold
    ensures |HoldersOf(hold - {h}, hold[h])| == |HoldersOf(hold, hold[h])| - 1
    ensures forall d :: d != hold[h] ==> HoldersOf(hold - {h}, d) == HoldersOf(hold, d)
  {
    assert h in HoldersOf(hold, hold[h]);
    assert HoldersOf(hold - {h}, hold[h]) == HoldersOf(hold, hold[h]) - {h};
  }

  /** A held connection has a positive count and is not deleted. */
  lemma HeldIsUsable(s: State, h: Holder)
    requires Counted(s) && h in s.hold
    ensures Holds(s, h) && Usable(s, s.hold[h])
  {
    assert ConnOk(s, s.hold[h]);
    assert h in HoldersOf(s.hold, s.hold[h]);
  }

  lemma TwoHolders(s: State, h: Holder, k: Holder)
    requires Counted(s) && h in s.hold && k in s.hold && h != k && s.hold[h] == s.hold[k]
    ensures s.conns[s.hold[h]].refno >= 2
  {
    assert ConnOk(s, s.hold[h]);
    assert {h, k} <= HoldersOf(s.hold, s.hold[h]);
    SubsetSize({h, k}, HoldersOf(s.hold, s.hold[h]));
  }

  lemma IncRefCounts(s: State, h: Holder, c: nat)
    requires Counted(s) && h !in s.hold && Usable(s, c) && !h.Leaked?
    ensures Counted(IncRef(s, h, c))
  {
    AddHolder(s.hold, h, c);
    var s' := IncRef(s, h, c);
    forall d | d in s'.conns
      ensures ConnOk(s', d)
    {
      assert ConnOk(s, d);
    }
  }

  lemma DecRefCounts(s: State, h: Holder)
    requires Counted(s) && h in s.hold
    ensures Holds(s, h) && Counted(DecRef(s, h))
  {
    HeldIsUsable(s, h);
    RemoveHolder(s.hold, h);
    var s' := DecRef(s, h);
    forall d | d in s'.conns
      ensures ConnOk(s', d)
    {
      assert ConnOk(s, d);
    }
  }

  lemma NewConnCounts(s: State, h: Holder, c: nat)
    requires Counted(s) && h !in s.hold && c !in s.conns && !h.Leaked?
    ensures Counted(NewConn(s, h, c))
  {
    AddHolder(s.hold, h, c);
    assert HoldersOf(s.hold, c) == {};
    var s' := NewConn(s, h, c);
    forall d | d in s'.conns
      ensures ConnOk(s', d)
    {
      assert d != c ==> ConnOk(s, d);
    }
  }

  lemma KillCounts(s: State, c: nat)
    requires Counted(s) && Usable(s, c)
    ensures Counted(Kill(s, c))
  {
    var s' := Kill(s, c);
    forall d | d in s'.conns
      ensures ConnOk(s', d)
    {
      assert ConnOk(s, d);
    }
  }

  lemma LeakCounts(s: State, t: nat)
    requires Counted(s) && Job(t) in s.hold
    ensures Counted(Do(s, LeakJob(t)))
  {
    var c, h := s.hold[Job(t)], Leaked(s.leaks);
    RemoveHolder(s.hold, Job(t));
    AddHolder(s.hold - {Job(t)}, h, c);
    var s' := Do(s, LeakJob(t));
    forall d | d in s'.conns
      ensures ConnOk(s', d)
    {
      assert ConnOk(s, d);
    }
  }

  /** A new reference to c while another holder keeps c alive, after dropping old. */
  lemma MoveCounts(s: State, mover: Holder, c: nat, keeper: Holder)
    requires Counted(s) && keeper in s.hold && s.hold[keeper] == c && keeper != mover && !mover.Leaked?
    ensures mover in s.hold ==> Holds(s, mover)
    ensures Usable(Drop(s, mover), c) && Counted(IncRef(Drop(s, mover), mover, c))
  {
    if mover in s.hold {
      DecRefCounts(s, mover);
    }
    HeldIsUsable(Drop(s, mover), keeper);
    IncRefCounts(Drop(s, mover), mover, c);
  }

  lemma StepCounts(s: State, a: Action)
    requires Counted(s) && Enabled(s, a)
    ensures Counted(Do(s, a))
  {
    match a
    case Accept(c) => NewConnCounts(s, Acceptor(c), c);
    case GcCheck(c) =>
    case GcRelease => DecRefCounts(s, Acceptor(s.gc.value));
    case GotPdu(t, c) => IncRefCounts(s, Job(t), c);
    case DropJob(t) => DecRefCounts(s, Job(t));
    case LeakJob(t) => LeakCounts(s, t);
    case SaveLatest(t, clt) => MoveCounts(s, Latest(clt), s.hold[Job(t)], Job(t));
    case SwitchToLatest(t, clt) => MoveCounts(s, Job(t), s.hold[Latest(clt)], Latest(clt));
    case Connect(r, c) =>
      if Channel(r) in s.hold {
        DecRefCounts(s, Channel(r));
      }
      if c.Some? {
        NewConnCounts(Drop(s, Channel(r)), Channel(r), c.value);
      }
    case UseChannel(t, r) => MoveCounts(s, Caller(t), s.hold[Channel(r)], Channel(r));
    case DropCaller(t) => DecRefCounts(s, Caller(t));
    case CloseChannel(r) =>
      HeldIsUsable(s, Channel(r));
      KillCounts(s, s.hold[Channel(r)]);
      DecRefCounts(Kill(s, s.hold[Channel(r)]), Channel(r));
    case CloseAccepted(c) =>
      HeldIsUsable(s, Acceptor(c));
      KillCounts(s, c);
      DecRefCounts(Kill(s, c), Acceptor(c));
    case Die(c) => KillCounts(s, c);
  }

  /** Between the acceptor's check and its decref nobody can reach the connection: an
      incref needs another holder, or a connection that is not dead. */
  lemma OnlyTheAcceptor(s: State)
    requires Inv(s) && s.gc.Some?
    ensures forall h :: h in s.hold && s.hold[h] == s.gc.value ==> h == Acceptor(s.gc.value)
  {
    var c := s.gc.value;
    forall h | h in s.hold && s.hold[h] == c
      ensures h == Acceptor(c)
    {
      if h != Acceptor(c) {
        TwoHolders(s, h, Acceptor(c));
      }
    }
  }

  lemma StepGc(s: State, a: Action)
    requires Inv(s) && Enabled(s, a)
    ensures GcOk(Do(s, a))
  {
    if s.gc.Some? {
      OnlyTheAcceptor(s);
    }
  }

  lemma IncRefBases(s: State, h: Holder, c: nat)
    requires BasesOk(s) && h !in s.hold && c in s.conns
    ensures BasesOk(IncRef(s, h, c))
  {
    KeepsBases(s, IncRef(s, h, c));
  }

  /** Where no base is given up no live connection loses its own. */
  lemma KeepsBases(s: State, s': State)
    requires BasesOk(s)
    requires forall h :: h in s.hold && IsBase(h) && s.hold[h] in s'.conns && !s'.conns[s.hold[h]].dead ==>
               h in s'.hold && s'.hold[h] == s.hold[h]
    ensures forall c :: c in s.conns && !s.conns[c].dead && c in s'.conns && !s'.conns[c].dead ==> HasBase(s'.hold, c)
  {
    forall c | c in s.conns && !s.conns[c].dead && c in s'.conns && !s'.conns[c].dead
      ensures HasBase(s'.hold, c)
    {
      var h :| h in s.hold && s.hold[h] == c && IsBase(h);
      assert h in s'.hold;
    }
  }

  lemma DecRefBases(s: State, h: Holder)
    requires BasesOk(s) && Holds(s, h) && (IsBase(h) ==> s.conns[s.hold[h]].dead)
    ensures BasesOk(DecRef(s, h))
  {
    KeepsBases(s, DecRef(s, h));
  }

  lemma NewConnBases(s: State, h: Holder, c: nat)
    requires BasesOk(s) && h !in s.hold && IsBase(h)
    ensures BasesOk(NewConn(s, h, c))
  {
    var s' := NewConn(s, h, c);
    KeepsBases(s, s');
    assert h in s'.hold && s'.hold[h] == c;
  }

  lemma KillBases(s: State, c: nat)
    requires Counted(s) && BasesOk(s) && Usable(s, c)
    ensures BasesOk(Kill(s, c))
  {
    KeepsBases(s, Kill(s, c));
    if !s.conns[c].dead {
      var h :| h in s.hold && s.hold[h] == c && IsBase(h);
      HeldIsUsable(s, h);
    }
  }

  lemma LeakBases(s: State, t: nat)
    requires BasesOk(s) && Counted(s) && Job(t) in s.hold
    ensures BasesOk(Do(s, LeakJob(t)))
  {
    KeepsBases(s, Do(s, LeakJob(t)));
  }

  lemma MoveBases(s: State, mover: Holder, c: nat, keeper: Holder)
    requires Counted(s) && BasesOk(s) && keeper in s.hold && s.hold[keeper] == c && keeper != mover && !IsBase(mover)
    ensures mover in s.hold ==> Holds(s, mover)
    ensures c in Drop(s, mover).conns && BasesOk(IncRef(Drop(s, mover), mover, c))
  {
    if mover in s.hold {
      HeldIsUsable(s, mover);
      DecRefBases(s, mover);
    }
    IncRefBases(Drop(s, mover), mover, c);
  }

  lemma CloseBases(s: State, h: Holder)
    requires Counted(s) && BasesOk(s) && h in s.hold
    ensures s.hold[h] in s.conns && Holds(Kill(s, s.hold[h]), h)
    ensures BasesOk(DecRef(Kill(s, s.hold[h]), h))
  {
    HeldIsUsable(s, h);
    KillBases(s, s.hold[h]);
    DecRefBases(Kill(s, s.hold[h]), h);
  }

  lemma ConnectBases(s: State, r: nat, c: Option<nat>)
    requires Counted(s) && BasesOk(s) && Enabled(s, Connect(r, c))
    ensures BasesOk(Do(s, Connect(r, c)))
  {
    if Channel(r) in s.hold {
      DecRefBases(s, Channel(r));
    }
    if c.Some? {
      NewConnBases(Drop(s, Channel(r)), Channel(r), c.value);
    }
  }

  lemma StepBases(s: State, a: Action)
    requires Inv(s) && Enabled(s, a)
    ensures BasesOk(Do(s, a))
  {
    match a
    case Accept(c) => NewConnBases(s, Acceptor(c), c);
    case GcCheck(c) =>
    case GcRelease => DecRefBases(s, Acceptor(s.gc.value));
    case GotPdu(t, c) => IncRefBases(s, Job(t), c);
    case DropJob(t) => DecRefBases(s, Job(t));
    case LeakJob(t) => LeakBases(s, t);
    case SaveLatest(t, clt) => MoveBases(s, Latest(clt), s.hold[Job(t)], Job(t));
    case SwitchToLatest(t, clt) => MoveBases(s, Job(t), s.hold[Latest(clt)], Latest(clt));
    case Connect(r, c) => ConnectBases(s, r, c);
    case UseChannel(t, r) => MoveBases(s, Caller(t), s.hold[Channel(r)], Channel(r));
    case DropCaller(t) => DecRefBases(s, Caller(t));
    case CloseChannel(r) => CloseBases(s, Channel(r));
    case CloseAccepted(c) => CloseBases(s, Acceptor(c));
    case Die(c) => KillBases(s, c);
  }

  lemma {:induction false} Safe(acts: seq<Action>)
    requires Legal(acts)
    ensures Inv(After(acts))
  {
    if acts != [] {
      var s, a := After(acts[..|acts| - 1]), acts[|acts| - 1];
      Safe(acts[..|acts| - 1]);
      StepCounts(s, a);
      StepGc(s, a);
      StepBases(s, a);
    }
  }

  ghost function LiveHolders(hold: map<Holder, nat>, c: nat): set<Holder> {
    set h | h in hold && hold[h] == c && !h.Leaked?
  }

  /** The count of a connection is at least the number of its live holders, and it
      exceeds it only by leaked references. */
  lemma CountCoversHolders(acts: seq<Action>, c: nat)
    requires Legal(acts) && c in After(acts).conns
    ensures var s := After(acts);
            && |LiveHolders(s.hold, c)| <= s.conns[c].refno
            && s.conns[c].refno - |LiveHolders(s.hold, c)| == |HoldersOf(s.hold, c) - LiveHolders(s.hold, c)|
            && forall h :: h in HoldersOf(s.hold, c) - LiveHolders(s.hold, c) ==> h.Leaked?
  {
    Safe(acts);
    assert ConnOk(After(acts), c);
    LiveAndLeaked(After(acts).hold, c);
  }

  lemma LiveAndLeaked(hold: map<Holder, nat>, c: nat)
    ensures var all, live := HoldersOf(hold, c), LiveHolders(hold, c);
            |all| == |live| + |all - live| && forall h :: h in all - live ==> h.Leaked?
  {
    var all, live := HoldersOf(hold, c), LiveHolders(hold, c);
    assert all == live + (all - live);
  }

  /** Nobody ever holds a deleted connection. */
  lemma HeldIsNeverDeleted(acts: seq<Action>, h: Holder)
    requires Legal(acts) && h in After(acts).hold
    ensures Usable(After(acts), After(acts).hold[h])
  {
    Safe(acts);
    HeldIsUsable(After(acts), h);
  }

  /** A connection is deleted exactly when nobody holds it, and it is dead then: none
      is deleted early and none is forgotten, leaked references apart. */
  lemma DeletedExactly(acts: seq<Action>, c: nat)
    requires Legal(acts) && c in After(acts).conns
    ensures After(acts).conns[c].deleted <==> HoldersOf(After(acts).hold, c) == {}
    ensures HoldersOf(After(acts).hold, c) == {} ==> After(acts).conns[c].dead
  {
    var s := After(acts);
    Safe(acts);
    assert ConnOk(s, c);
    if HoldersOf(s.hold, c) == {} {
      assert forall h :: h in s.hold && s.hold[h] == c ==> h in HoldersOf(s.hold, c);
    }
  }

  /** And the step that deletes it gives up its last reference. */
  lemma DeletedWhenDeadAndUnheld(acts: seq<Action>, a: Action, c: nat)
    requires Legal(acts) && Enabled(After(acts), a)
    requires Usable(After(acts), c) && c in Do(After(acts), a).conns && Do(After(acts), a).conns[c].deleted
    ensures Do(After(acts), a).conns[c].dead && HoldersOf(Do(After(acts), a).hold, c) == {}
    ensures exists h :: h in After(acts).hold && After(acts).hold[h] == c
  {
    Safe(acts);
    StepCounts(After(acts), a);
    DeletedExactly(acts, c);
    assert ConnOk(Do(After(acts), a), c);
    var h :| h in HoldersOf(After(acts).hold, c);
  }

  // ---------- Who holds what ----------

  ghost predicate HoldsConn(s: State, h: Holder, c: nat) {
    h in s.hold && s.hold[h] == c
  }

  /** Whom each step leaves with which connection. */
  lemma NewHolders(s: State, a: Action)
    requires Counted(s) && Enabled(s, a)
    ensures a.Accept? ==> HoldsConn(Do(s, a), Acceptor(a.c), a.c)
    ensures a.GotPdu? ==> HoldsConn(Do(s, a), Job(a.t), a.c)
    ensures a.SaveLatest? ==> HoldsConn(Do(s, a), Latest(a.clt), s.hold[Job(a.t)])
    ensures a.SaveLatest? ==> HoldsConn(Do(s, a), Job(a.t), s.hold[Job(a.t)])
    ensures a.SwitchToLatest? ==> HoldsConn(Do(s, a), Job(a.t), s.hold[Latest(a.clt)])
    ensures a.UseChannel? ==> HoldsConn(Do(s, a), Caller(a.t), s.hold[Channel(a.r)])
    ensures a.Connect? && a.made.Some? ==> HoldsConn(Do(s, a), Channel(a.r), a.made.value)
    ensures a.Connect? && a.made.None? ==> Channel(a.r) !in Do(s, a).hold
  {}

  lemma LatestStays(s: State, a: Action, clt: nat, c: nat)
    requires Enabled(s, a) && HoldsConn(s, Latest(clt), c) && !(a.SaveLatest? && a.clt == clt)
    ensures HoldsConn(Do(s, a), Latest(clt), c)
  {}

  /** The latest connection of a client is that of the last request of its that was
      dispatched, over whatever connections the client came before. */
  lemma {:induction false} LatestIsTheLast(before: seq<Action>, t: nat, clt: nat, after: seq<Action>)
    requires Legal(before) && Enabled(After(before), SaveLatest(t, clt))
    requires Legal(before + [SaveLatest(t, clt)] + after)
    requires forall i :: 0 <= i < |after| ==> !(after[i].SaveLatest? && after[i].clt == clt)
    ensures Job(t) in After(before).hold
    ensures HoldsConn(After(before + [SaveLatest(t, clt)] + after), Latest(clt), After(before).hold[Job(t)])
    decreases |after|
  {
    var start := before + [SaveLatest(t, clt)];
    if after == [] {
      assert start + after == start && start[..|start| - 1] == before;
      Safe(before);
      NewHolders(After(before), SaveLatest(t, clt));
    } else {
      var most := after[..|after| - 1];
      assert (start + after)[..|start + after| - 1] == start + most;
      LatestIsTheLast(before, t, clt, most);
      LatestStays(After(start + most), after[|after| - 1], clt, After(before).hold[Job(t)]);
    }
  }

  // ---------- Dead connections ----------

  /** The action closes connection c. */
  ghost predicate Closes(s: State, a: Action, c: nat) {
    match a
    case Die(d) => d == c
    case CloseAccepted(d) => d == c
    case CloseChannel(r) => HoldsConn(s, Channel(r), c)
    case _ => false
  }

  ghost predicate IsDead(s: State, c: nat) {
    c in s.conns && s.conns[c].dead
  }

  ghost predicate ClosedIn(acts: seq<Action>, c: nat)
    requires Legal(acts)
  {
    acts != [] &&
    (ClosedIn(acts[..|acts| - 1], c) || Closes(After(acts[..|acts| - 1]), acts[|acts| - 1], c))
  }

  /** A connection is dead iff it failed or was closed at some step before, and no
      reconnect revives it. */
  lemma {:induction false} DeadExactly(acts: seq<Action>, c: nat)
    requires Legal(acts)
    ensures IsDead(After(acts), c) <==> ClosedIn(acts, c)
  {
    if acts != [] {
      var n := |acts| - 1;
      DeadExactly(acts[..n], c);
      Safe(acts[..n]);
      DeadStep(After(acts[..n]), acts[n], c);
    }
  }

  lemma DeadStep(s: State, a: Action, c: nat)
    requires Counted(s) && Enabled(s, a)
    ensures IsDead(Do(s, a), c) <==> IsDead(s, c) || Closes(s, a, c)
  {
    match a
    case Connect(r, _) => assert IsDead(Drop(s, Channel(r)), c) <==> IsDead(s, c);
    case _ =>
  }
}
