/** `SelectAIO`: the watched descriptors and their maximum. */
module SelectAio {

  datatype Flag = RdOnly | WrOnly | RdWr

  function Reads(flag: Flag, fd: nat): set<nat> {
    if flag == WrOnly then {} else {fd}
  }

  function Writes(flag: Flag, fd: nat): set<nat> {
    if flag == RdOnly then {} else {fd}
  }

  ghost predicate Ascending(l: seq<nat>) {
    forall i, j :: 0 <= i < j < |l| ==> l[i] < l[j]
  }

  class SelectAio {
    const pipe: nat
    var rfds: set<nat>
    var wfds: set<nat>
    var highfds: nat
    var bytes: nat

    /** highfds_ is the largest watched descriptor; the pipe is always watched. */
    ghost predicate Valid()
      reads this
    {
      && pipe in rfds && pipe !in wfds
      && highfds in rfds + wfds
      && forall fd :: fd in rfds + wfds ==> fd <= highfds
    }

    constructor (pipe: nat)
      ensures Valid() && rfds == {this.pipe} && wfds == {} && bytes == 0 && this.pipe == pipe
    {
      this.pipe := pipe;
      rfds, wfds, highfds, bytes := {pipe}, {}, pipe, 0;
    }

    method WatchFd(fd: nat, flag: Flag)
      requires Valid() && fd != pipe
      modifies this
      ensures Valid()
      ensures rfds == old(rfds) + Reads(flag, fd) && wfds == old(wfds) + Writes(flag, fd)
      ensures bytes == old(bytes) + 1
    {
      if highfds <= fd {
        highfds := fd;
      }
      match flag {
        case RdOnly => rfds := rfds + {fd};
        case WrOnly => wfds := wfds + {fd};
        case RdWr => rfds := rfds + {fd}; wfds := wfds + {fd};
      }
      bytes := bytes + 1;
    }

    /** The result says that fd is no longer watched at all. */
    method UnwatchFd(fd: nat, flag: Flag) returns (gone: bool)
      requires Valid() && fd != pipe
      modifies this
      ensures Valid()
      ensures rfds == old(rfds) - Reads(flag, fd) && wfds == old(wfds) - Writes(flag, fd)
      ensures gone <==> fd !in rfds && fd !in wfds
      ensures bytes == old(bytes) + if flag == RdWr then 1 else 0
    {
      match flag {
        case RdOnly => rfds := rfds - {fd};
        case WrOnly => wfds := wfds - {fd};
        case RdWr => wfds := wfds - {fd}; rfds := rfds - {fd};
      }
      gone := fd !in rfds && fd !in wfds;
      if gone && fd == highfds {
        var newh := pipe;
        var i := 0;
        while i <= highfds
          invariant i <= highfds + 1
          invariant newh in rfds + wfds
          invariant newh < i || newh == pipe
          invariant forall k :: k in rfds + wfds && k < i ==> k <= newh
        {
          if i in rfds || i in wfds {
            newh := i;
          }
          i := i + 1;
        }
        highfds := newh;
      }
      if flag == RdWr {
        bytes := bytes + 1;
      }
    }

    /** The scan after `select` returned the sets tr and tw: in ascending order, every
        ready descriptor but the pipe, whose byte is consumed. */
    method Collect(tr: set<nat>, tw: set<nat>, high: nat) returns (readable: seq<nat>, writable: seq<nat>)
      requires pipe !in tw && (pipe in tr ==> bytes > 0)
      requires (forall k :: k in tr ==> k <= high) && forall k :: k in tw ==> k <= high
      modifies this`bytes
      ensures Ascending(readable) && Ascending(writable)
      ensures forall fd :: fd in readable <==> fd in tr - {pipe}
      ensures forall fd :: fd in writable <==> fd in tw
      ensures bytes == old(bytes) - if pipe in tr then 1 else 0
    {
      readable, writable := [], [];
      var fd := 0;
      while fd <= high
        invariant fd <= high + 1
        invariant Ascending(readable) && Ascending(writable)
        invariant forall k :: k in readable <==> k in tr - {pipe} && k < fd
        invariant forall k :: k in writable <==> k in tw && k < fd
        invariant forall i :: 0 <= i < |readable| ==> readable[i] < fd
        invariant forall i :: 0 <= i < |writable| ==> writable[i] < fd
        invariant bytes == old(bytes) - if pipe in tr && pipe < fd then 1 else 0
      {
        if fd == pipe && fd in tr {
          bytes := bytes - 1;
        } else {
          if fd in tw {
            writable := writable + [fd];
          }
          if fd in tr {
            readable := readable + [fd];
          }
        }
        fd := fd + 1;
      }
    }
  }
}

/** `PollMgr`: the poll thread, and any number of threads that add, delete and remove
    callbacks, in every interleaving. */
module PollMgr {
  import opened Wrappers
  import opened SelectAio

  datatype Callback = ReadCb(fd: nat) | WriteCb(fd: nat)

  /** Where the poll thread is in `wait_loop`. */
  datatype Pc =
    | Top                                               // about to look at pending_change_
    | Snap                                              // about to copy the fd sets
    | Selecting(r: set<nat>, w: set<nat>)               // in select on the copies
    | Dispatching(readable: seq<nat>, writable: seq<nat>)
    | Calling(cb: Callback, readable: seq<nat>, writable: seq<nat>)   // inside a callback

  /** A thread inside `block_remove_fd`: it holds the mutex, waits, was woken, or is
      back.  `fenced` (history): no add_callback for fd since it unwatched fd. */
  datatype Phase = Marked | Waiting | Woken | Returned
  datatype Remover = Remover(fd: nat, phase: Phase, fenced: bool)

  datatype State = State(callbacks: map<nat, nat>, pending: bool, mutex: Option<nat>,
                         rfds: set<nat>, wfds: set<nat>, bytes: nat,
                         pc: Pc, removers: map<nat, Remover>)

  datatype Action =
    | AddCallback(fd: nat, flag: Flag, ch: nat)
    | DelCallback(fd: nat, flag: Flag)
    | RemoveBegin(t: nat, fd: nat)
    | RemoveWait(t: nat)
    | RemoveReturn(t: nat)
    | Check
    | Snapshot
    | Select(tr: set<nat>, tw: set<nat>, readable: seq<nat>, writable: seq<nat>)
    | Interrupted
    | Call
    | CallDone

  /** The reading end of the self-pipe. */
  const PIPE: nat := 0

  const Init := State(map[], false, None, {PIPE}, {}, 0, Top, map[])

  ghost predicate InPhase(s: State, t: nat, phase: Phase) {
    t in s.removers && s.removers[t].phase == phase
  }

  /** select returns some ready descriptors of the sets it was given; the pipe is
      ready when it holds a byte.  The scan lists them. */
  ghost predicate Ready(s: State, tr: set<nat>, tw: set<nat>, readable: seq<nat>, writable: seq<nat>)
    requires s.pc.Selecting?
  {
    && tr <= s.pc.r && tw <= s.pc.w && tr + tw != {}
    && (PIPE in tr ==> s.bytes > 0)
    && (forall fd :: fd in readable <==> fd in tr - {PIPE})
    && (forall fd :: fd in writable <==> fd in tw)
  }

  ghost predicate Enabled(s: State, a: Action) {
    match a
    case AddCallback(fd, _, ch) =>
      s.mutex == None && fd != PIPE && (fd in s.callbacks ==> s.callbacks[fd] == ch)
    case DelCallback(fd, _) => s.mutex == None && fd != PIPE
    case RemoveBegin(t, fd) => s.mutex == None && fd != PIPE && t !in s.removers
    case RemoveWait(t) => InPhase(s, t, Marked)
    case RemoveReturn(t) => s.mutex == None && InPhase(s, t, Woken)
    case Check => s.pc == Top && s.mutex == None
    case Snapshot => s.pc == Snap
    case Select(tr, tw, readable, writable) => s.pc.Selecting? && Ready(s, tr, tw, readable, writable)
    case Interrupted => s.pc.Selecting?
    case Call => s.pc.Dispatching?
    case CallDone => s.pc.Calling?
  }

  ghost function WithPhase(s: State, t: nat, phase: Phase): State
    requires t in s.removers
  {
    s.(removers := s.removers[t := s.removers[t].(phase := phase)])
  }

  /** A new callback for fd ends the promise made to whoever removed it. */
  ghost function Unfence(removers: map<nat, Remover>, fd: nat): map<nat, Remover> {
    map t | t in removers :: if removers[t].fd == fd then removers[t].(fenced := false) else removers[t]
  }

  ghost function WakeAll(removers: map<nat, Remover>): map<nat, Remover> {
    map t | t in removers :: if removers[t].phase == Waiting then removers[t].(phase := Woken) else removers[t]
  }

  ghost function Unwatched(s: State, fd: nat, flag: Flag): State {
    s.(rfds := s.rfds - Reads(flag, fd), wfds := s.wfds - Writes(flag, fd),
       bytes := s.bytes + if flag == RdWr then 1 else 0)
  }

  /** The next descriptor in line, called only if it still has a callback. */
  ghost function CallNext(s: State): State
    requires s.pc.Dispatching?
  {
    var r, w := s.pc.readable, s.pc.writable;
    if r != [] then
      s.(pc := if r[0] in s.callbacks then Calling(ReadCb(r[0]), r[1..], w) else Dispatching(r[1..], w))
    else if w != [] then
      s.(pc := if w[0] in s.callbacks then Calling(WriteCb(w[0]), r, w[1..]) else Dispatching(r, w[1..]))
    else s.(pc := Top)
  }

  ghost function Do(s: State, a: Action): State
    requires Enabled(s, a)
  {
    match a
    case AddCallback(fd, flag, ch) =>
      s.(rfds := s.rfds + Reads(flag, fd), wfds := s.wfds + Writes(flag, fd), bytes := s.bytes + 1,
         callbacks := s.callbacks[fd := ch], removers := Unfence(s.removers, fd))
    case DelCallback(fd, flag) =>
      var s' := Unwatched(s, fd, flag);
      if fd !in s'.rfds && fd !in s'.wfds then s'.(callbacks := s.callbacks - {fd}) else s'
    case RemoveBegin(t, fd) =>
      Unwatched(s, fd, RdWr).(mutex := Some(t), removers := s.removers[t := Remover(fd, Marked, true)])
    case RemoveWait(t) => WithPhase(s, t, Waiting).(pending := true, mutex := None)
    case RemoveReturn(t) => WithPhase(s, t, Returned).(callbacks := s.callbacks - {s.removers[t].fd})
    case Check =>
      if s.pending then s.(pending := false, removers := WakeAll(s.removers), pc := Snap) else s.(pc := Snap)
    case Snapshot => s.(pc := Selecting(s.rfds, s.wfds))
    case Select(tr, _, readable, writable) =>
      s.(pc := Dispatching(readable, writable), bytes := if PIPE in tr then s.bytes - 1 else s.bytes)
    case Interrupted => s.(pc := Top)
    case Call => CallNext(s)
    case CallDone => s.(pc := Dispatching(s.pc.readable, s.pc.writable))
  }

  ghost predicate Legal(acts: seq<Action>)
    decreases |acts|, 0
  {
    acts == [] ||
    (Legal(acts[..|acts| - 1]) && Enabled(After(acts[..|acts| - 1]), acts[|acts| - 1]))
  }

  ghost function After(acts: seq<Action>): State
    requires Legal(acts)
    decreases |acts|, 1
  {
    if acts == [] then Init else Do(After(acts[..|acts| - 1]), acts[|acts| - 1])
  }

  /** fd plays no part in what the poll thread is doing or about to do. */
  ghost predicate AwayFrom(pc: Pc, fd: nat) {
    match pc
    case Top => true
    case Snap => true
    case Selecting(r, w) => fd !in r && fd !in w
    case Dispatching(r, w) => fd !in r && fd !in w
    case Calling(cb, r, w) => fd != cb.fd && fd !in r && fd !in w
  }

  ghost predicate RemoverOk(s: State, t: nat, r: Remover) {
    && r.fd != PIPE
    && (r.fenced ==> r.fd !in s.rfds && r.fd !in s.wfds)
    && (r.fenced && (r.phase == Woken || r.phase == Returned) ==> AwayFrom(s.pc, r.fd))
    && (r.fenced && r.phase == Returned ==> r.fd !in s.callbacks)
    && (r.phase == Marked <==> s.mutex == Some(t))
    && (r.phase == Waiting ==> s.pending)
  }

  /** Someone still needs the poll thread to come round. */
  ghost predicate Awaited(s: State) {
    exists t :: InPhase(s, t, Marked) || InPhase(s, t, Waiting)
  }

  /** The byte written by a remover is still in the pipe for the coming select. */
  ghost predicate SelectWillReturn(s: State) {
    (s.pc.Snap? || s.pc.Selecting?) && Awaited(s) ==> s.bytes > 0
  }

  ghost predicate RemoversOk(s: State) {
    forall t :: t in s.removers ==> RemoverOk(s, t, s.removers[t])
  }

  ghost predicate PipeOk(s: State) {
    && PIPE in s.rfds && PIPE !in s.wfds
    && (s.pc.Selecting? ==> PIPE in s.pc.r && PIPE !in s.pc.w)
  }

  ghost predicate Inv(s: State) {
    && RemoversOk(s) && PipeOk(s) && SelectWillReturn(s)
    && (s.mutex.Some? ==> s.mutex.value in s.removers)
  }

  lemma AddKeeps(s: State, fd: nat, flag: Flag, ch: nat)
    requires RemoversOk(s) && Enabled(s, AddCallback(fd, flag, ch))
    ensures RemoversOk(Do(s, AddCallback(fd, flag, ch)))
  {
    var s' := Do(s, AddCallback(fd, flag, ch));
    forall t | t in s'.removers
      ensures RemoverOk(s', t, s'.removers[t])
    {
      assert t in s.removers ==> RemoverOk(s, t, s.removers[t]);
    }
  }

  lemma DelKeeps(s: State, fd: nat, flag: Flag)
    requires RemoversOk(s) && Enabled(s, DelCallback(fd, flag))
    ensures RemoversOk(Do(s, DelCallback(fd, flag)))
  {
    var s' := Do(s, DelCallback(fd, flag));
    forall t | t in s'.removers
      ensures RemoverOk(s', t, s'.removers[t])
    {
      assert t in s.removers ==> RemoverOk(s, t, s.removers[t]);
    }
  }

  lemma RemoveBeginKeeps(s: State, t: nat, fd: nat)
    requires RemoversOk(s) && Enabled(s, RemoveBegin(t, fd))
    ensures RemoversOk(Do(s, RemoveBegin(t, fd)))
  {
    var s' := Do(s, RemoveBegin(t, fd));
    forall u | u in s'.removers
      ensures RemoverOk(s', u, s'.removers[u])
    {
      assert u in s.removers ==> RemoverOk(s, u, s.removers[u]);
    }
  }

  lemma RemoveWaitKeeps(s: State, t: nat)
    requires RemoversOk(s) && Enabled(s, RemoveWait(t))
    ensures RemoversOk(Do(s, RemoveWait(t)))
  {
    var s' := Do(s, RemoveWait(t));
    forall u | u in s'.removers
      ensures RemoverOk(s', u, s'.removers[u])
    {
      assert u in s.removers ==> RemoverOk(s, u, s.removers[u]);
    }
  }

  lemma RemoveReturnKeeps(s: State, t: nat)
    requires RemoversOk(s) && Enabled(s, RemoveReturn(t))
    ensures RemoversOk(Do(s, RemoveReturn(t)))
  {
    var s' := Do(s, RemoveReturn(t));
    forall u | u in s'.removers
      ensures RemoverOk(s', u, s'.removers[u])
    {
      assert u in s.removers ==> RemoverOk(s, u, s.removers[u]);
    }
  }

  /** The steps of the poll thread. */
  lemma PollKeeps(s: State, a: Action)
    requires RemoversOk(s) && Enabled(s, a)
    requires a.Check? || a.Snapshot? || a.Select? || a.Interrupted? || a.Call? || a.CallDone?
    ensures RemoversOk(Do(s, a))
  {
    var s' := Do(s, a);
    forall t | t in s'.removers
      ensures RemoverOk(s', t, s'.removers[t])
    {
      assert t in s.removers ==> RemoverOk(s, t, s.removers[t]);
    }
  }

  lemma StepKeepsRemovers(s: State, a: Action)
    requires RemoversOk(s) && Enabled(s, a)
    ensures RemoversOk(Do(s, a))
  {
    match a
    case AddCallback(fd, flag, ch) => AddKeeps(s, fd, flag, ch);
    case DelCallback(fd, flag) => DelKeeps(s, fd, flag);
    case RemoveBegin(t, fd) => RemoveBeginKeeps(s, t, fd);
    case RemoveWait(t) => RemoveWaitKeeps(s, t);
    case RemoveReturn(t) => RemoveReturnKeeps(s, t);
    case _ => PollKeeps(s, a);
  }

  lemma StepKeepsPipe(s: State, a: Action)
    requires PipeOk(s) && RemoversOk(s) && Enabled(s, a)
    ensures PipeOk(Do(s, a))
  {}

  lemma StepKeeps(s: State, a: Action)
    requires Inv(s) && Enabled(s, a)
    ensures Inv(Do(s, a))
  {
    StepKeepsRemovers(s, a);
    StepKeepsPipe(s, a);
    AwaitedStep(s, a);
  }

  lemma AwaitedStep(s: State, a: Action)
    requires Enabled(s, a) && SelectWillReturn(s) && RemoversOk(s)
    ensures SelectWillReturn(Do(s, a))
  {
    var s' := Do(s, a);
    if Awaited(s') && !a.RemoveBegin? && !a.Check? {
      var t :| InPhase(s', t, Marked) || InPhase(s', t, Waiting);
      assert InPhase(s, t, Marked) || InPhase(s, t, Waiting);
    }
    if a.Check? && Awaited(s') {
      var t :| InPhase(s', t, Marked) || InPhase(s', t, Waiting);
      assert RemoverOk(s, t, s.removers[t]);
    }
  }

  lemma {:induction false} Safe(acts: seq<Action>)
    requires Legal(acts)
    ensures Inv(After(acts))
  {
    if acts != [] {
      Safe(acts[..|acts| - 1]);
      StepKeeps(After(acts[..|acts| - 1]), acts[|acts| - 1]);
    }
  }

  /** Remover t is back from block_remove_fd(fd), and fd was not added again. */
  ghost predicate Removed(s: State, t: nat, fd: nat) {
    t in s.removers && s.removers[t] == Remover(fd, Returned, true)
  }

  /** No callback of fd is running, and none is on its way to be called. */
  ghost predicate Quiescent(s: State, fd: nat) {
    && (s.pc.Calling? ==> s.pc.cb.fd != fd)
    && AwayFrom(s.pc, fd)
    && fd !in s.rfds && fd !in s.wfds && fd !in s.callbacks
  }

  ghost predicate Adds(a: Action, fd: nat) {
    a.AddCallback? && a.fd == fd
  }

  lemma RemovedStays(s: State, a: Action, t: nat, fd: nat)
    requires Enabled(s, a) && Removed(s, t, fd) && !Adds(a, fd)
    ensures Removed(Do(s, a), t, fd)
  {}

  lemma {:induction false} RemovedUntilAdded(before: seq<Action>, after: seq<Action>, t: nat, fd: nat)
    requires Legal(before) && Legal(before + after) && Removed(After(before), t, fd)
    requires forall i :: 0 <= i < |after| ==> !Adds(after[i], fd)
    ensures Removed(After(before + after), t, fd)
  {
    if after == [] {
      assert before + after == before;
    } else {
      var n := |after| - 1;
      assert (before + after)[..|before + after| - 1] == before + after[..n];
      RemovedUntilAdded(before, after[..n], t, fd);
      RemovedStays(After(before + after[..n]), after[n], t, fd);
    }
  }

  /** Once block_remove_fd(fd) has returned, whatever all threads do from then on, no
      callback of fd runs or is about to run until fd is added again. */
  lemma QuiescentUntilAdded(before: seq<Action>, after: seq<Action>, t: nat, fd: nat)
    requires Legal(before) && Legal(before + after) && Removed(After(before), t, fd)
    requires forall i :: 0 <= i < |after| ==> !Adds(after[i], fd)
    ensures Quiescent(After(before + after), fd)
  {
    RemovedUntilAdded(before, after, t, fd);
    Safe(before + after);
    assert RemoverOk(After(before + after), t, After(before + after).removers[t]);
  }

  /** A waiting remover is not stranded behind a blocked select: the select can
      return by the pipe alone, whatever the other descriptors do. */
  lemma SelectCannotBlock(acts: seq<Action>, t: nat)
    requires Legal(acts) && InPhase(After(acts), t, Waiting) && After(acts).pc.Selecting?
    ensures Enabled(After(acts), Select({PIPE}, {}, [], []))
  {
    Safe(acts);
    assert Awaited(After(acts));
  }

  /** And the next check of pending_change_ wakes every waiting remover. */
  lemma CheckWakesAll(acts: seq<Action>, t: nat)
    requires Legal(acts) && InPhase(After(acts), t, Waiting) && Enabled(After(acts), Check)
    ensures InPhase(Do(After(acts), Check), t, Woken)
    ensures forall u :: !InPhase(Do(After(acts), Check), u, Waiting)
  {
    Safe(acts);
    assert RemoverOk(After(acts), t, After(acts).removers[t]);
  }

  // ---------- The self-pipe and pending_change_ ----------

  ghost predicate SomeoneWaits(s: State) {
    exists t :: InPhase(s, t, Waiting)
  }

  /** pending_change_ says exactly that somebody waits for the poll thread. */
  lemma {:induction false} PendingExactly(acts: seq<Action>)
    requires Legal(acts)
    ensures After(acts).pending <==> SomeoneWaits(After(acts))
  {
    if acts != [] {
      var n := |acts| - 1;
      PendingExactly(acts[..n]);
      Safe(acts[..n]);
      PendingStep(After(acts[..n]), acts[n]);
    }
  }

  lemma PendingStep(s: State, a: Action)
    requires RemoversOk(s) && Enabled(s, a) && (s.pending <==> SomeoneWaits(s))
    ensures Do(s, a).pending <==> SomeoneWaits(Do(s, a))
  {
    var s' := Do(s, a);
    if SomeoneWaits(s) && !a.Check? {
      var t :| InPhase(s, t, Waiting);
      assert InPhase(s', t, Waiting);
    }
    if a.RemoveWait? {
      assert InPhase(s', a.t, Waiting);
    } else if SomeoneWaits(s') {
      var t :| InPhase(s', t, Waiting);
      assert InPhase(s, t, Waiting);
      assert RemoverOk(s, t, s.removers[t]);
    }
  }

  /** A descriptor is watched that the select under way does not look at. */
  ghost predicate Unseen(s: State) {
    s.pc.Selecting? && !(s.rfds <= s.pc.r && s.wfds <= s.pc.w)
  }

  /** Then the select can return by the pipe: what is added during a select is looked
      at without any other descriptor having to become ready. */
  lemma {:induction false} AddedWakesSelect(acts: seq<Action>)
    requires Legal(acts) && Unseen(After(acts))
    ensures After(acts).bytes > 0 && Enabled(After(acts), Select({PIPE}, {}, [], []))
  {
    Safe(acts);
    var n := |acts| - 1;
    if Unseen(After(acts[..n])) {
      AddedWakesSelect(acts[..n]);
    }
    UnseenStep(After(acts[..n]), acts[n]);
  }

  lemma UnseenStep(s: State, a: Action)
    requires Enabled(s, a) && (Unseen(s) ==> s.bytes > 0)
    ensures Unseen(Do(s, a)) ==> Do(s, a).bytes > 0
  {}

  /** The bytes that an action writes to the pipe, or less those it reads. */
  function PipeBytes(a: Action): int {
    match a
    case AddCallback(_, _, _) => 1
    case DelCallback(_, flag) => if flag == RdWr then 1 else 0
    case RemoveBegin(_, _) => 1
    case Select(tr, _, _, _) => if PIPE in tr then -1 else 0
    case _ => 0
  }

  ghost function AllPipeBytes(acts: seq<Action>): int {
    if acts == [] then 0 else AllPipeBytes(acts[..|acts| - 1]) + PipeBytes(acts[|acts| - 1])
  }

  /** No byte in the pipe is lost, and each select reads one at most. */
  lemma {:induction false} BytesExactly(acts: seq<Action>)
    requires Legal(acts)
    ensures After(acts).bytes == AllPipeBytes(acts)
  {
    if acts != [] {
      BytesExactly(acts[..|acts| - 1]);
      BytesStep(After(acts[..|acts| - 1]), acts[|acts| - 1]);
    }
  }

  lemma BytesStep(s: State, a: Action)
    requires Enabled(s, a)
    ensures Do(s, a).bytes == s.bytes + PipeBytes(a)
  {}

  // ---------- And whom it does call ----------

  /** The callbacks that are due after a select: the read callbacks, then the write
      callbacks. */
  ghost function Due(r: seq<nat>, w: seq<nat>): (due: seq<Callback>)
    ensures |due| == |r| + |w|
  {
    if r != [] then [ReadCb(r[0])] + Due(r[1..], w)
    else if w != [] then [WriteCb(w[0])] + Due(r, w[1..])
    else []
  }

  lemma {:induction false} DueAt(r: seq<nat>, w: seq<nat>, k: nat)
    requires k < |r| + |w|
    ensures Due(r, w)[k] == if k < |r| then ReadCb(r[k]) else WriteCb(w[k - |r|])
    decreases |r| + |w|
  {
    if k > 0 {
      if r != [] {
        DueAt(r[1..], w, k - 1);
      } else {
        DueAt(r, w[1..], k - 1);
      }
    }
  }

  /** How many turns have been taken. */
  ghost function Turns(after: seq<Action>): nat {
    if after == [] then 0
    else Turns(after[..|after| - 1]) + if after[|after| - 1].Call? then 1 else 0
  }

  /** The callbacks that were entered during `after`, in order. */
  ghost function Entered(before: seq<Action>, after: seq<Action>): seq<Callback>
    requires Legal(before + after)
    decreases |after|
  {
    if after == [] then []
    else
      LastStep(before, after);
      var most, a := after[..|after| - 1], after[|after| - 1];
      var s' := After(before + after);
      Entered(before, most) + if a.Call? && s'.pc.Calling? then [s'.pc.cb] else []
  }

  /** Of the callbacks due, those whose descriptor was registered at its turn. */
  ghost function Registered(due: seq<Callback>, before: seq<Action>, after: seq<Action>): seq<Callback>
    requires Legal(before + after)
    decreases |after|
  {
    if after == [] then []
    else
      LastStep(before, after);
      var most, a := after[..|after| - 1], after[|after| - 1];
      var k := Turns(most);
      Registered(due, before, most)
        + if a.Call? && k < |due| && due[k].fd in After(before + most).callbacks then [due[k]] else []
  }

  lemma LastStep(before: seq<Action>, after: seq<Action>)
    requires Legal(before + after) && after != []
    ensures var most, a := before + after[..|after| - 1], after[|after| - 1];
            Legal(most) && Enabled(After(most), a) && After(before + after) == Do(After(most), a)
  {
    assert (before + after)[..|before + after| - 1] == before + after[..|after| - 1];
  }

  /** All through `after`, up to its last step, the poll thread is calling back. */
  ghost predicate InRound(before: seq<Action>, after: seq<Action>)
    requires Legal(before + after)
    decreases |after|
  {
    after == [] ||
    (LastStep(before, after);
     var most := after[..|after| - 1];
     InRound(before, most) && (After(before + most).pc.Dispatching? || After(before + most).pc.Calling?))
  }

  /** What is still due. */
  ghost predicate Remain(pc: Pc, due: seq<Callback>, k: nat) {
    match pc
    case Dispatching(r, w) => k <= |due| && Due(r, w) == due[k..]
    case Calling(_, r, w) => k <= |due| && Due(r, w) == due[k..]
    case Top => k == |due| + 1
    case _ => false
  }

  lemma TurnTaken(s: State, due: seq<Callback>, k: nat)
    requires s.pc.Dispatching? && Remain(s.pc, due, k)
    ensures Remain(CallNext(s).pc, due, k + 1)
    ensures CallNext(s).pc.Calling? <==> k < |due| && due[k].fd in s.callbacks
    ensures CallNext(s).pc.Calling? ==> CallNext(s).pc.cb == due[k]
  {
    if k < |due| {
      assert due[k..][0] == due[k] && due[k..][1..] == due[k + 1..];
    }
  }

  lemma OtherSteps(s: State, a: Action)
    requires Enabled(s, a) && !a.Call? && (s.pc.Dispatching? || s.pc.Calling?)
    ensures Do(s, a).pc == if a.CallDone? then Dispatching(s.pc.readable, s.pc.writable) else s.pc
  {}

  /** After a select the poll thread enters, in order, exactly the callbacks due whose
      descriptor is registered when its turn comes, and it goes back to the top of its
      loop only when all have had their turn. */
  lemma {:induction false} RoundCallsExactly(before: seq<Action>, after: seq<Action>, r: seq<nat>, w: seq<nat>)
    requires Legal(before) && Legal(before + after) && After(before).pc == Dispatching(r, w)
    requires InRound(before, after)
    ensures Entered(before, after) == Registered(Due(r, w), before, after)
    ensures Remain(After(before + after).pc, Due(r, w), Turns(after))
    decreases |after|
  {
    var due := Due(r, w);
    if after == [] {
      assert before + after == before && due[0..] == due;
    } else {
      var most, a := after[..|after| - 1], after[|after| - 1];
      LastStep(before, after);
      RoundCallsExactly(before, most, r, w);
      var s := After(before + most);
      if a.Call? {
        TurnTaken(s, due, Turns(most));
      } else {
        OtherSteps(s, a);
      }
    }
  }

  /** So a ready descriptor that stays registered is called: read callback for readable,
      write callback for writable. */
  lemma {:induction false} TurnIsEntered(before: seq<Action>, after: seq<Action>, r: seq<nat>, w: seq<nat>, k: nat)
    requires Legal(before) && Legal(before + after) && After(before).pc == Dispatching(r, w)
    requires InRound(before, after) && k < |r| + |w| && k < Turns(after)
    requires StaysRegistered(before, after, Due(r, w)[k].fd)
    ensures Due(r, w)[k] in Entered(before, after)
    decreases |after|
  {
    var most := after[..|after| - 1];
    LastStep(before, after);
    RoundCallsExactly(before, after, r, w);
    RoundCallsExactly(before, most, r, w);
    if k < Turns(most) {
      TurnIsEntered(before, most, r, w, k);
    } else {
      assert Registered(Due(r, w), before, after) == Registered(Due(r, w), before, most) + [Due(r, w)[k]];
    }
  }

  ghost predicate StaysRegistered(before: seq<Action>, after: seq<Action>, fd: nat)
    requires Legal(before + after)
    decreases |after|
  {
    fd in After(before + after).callbacks &&
    (after != [] ==> (LastStep(before, after); StaysRegistered(before, after[..|after| - 1], fd)))
  }

  /** a takes fd off the sets or the callbacks. */
  ghost predicate Drops(s: State, a: Action, fd: nat) {
    match a
    case DelCallback(f, _) => f == fd
    case RemoveBegin(_, f) => f == fd
    case RemoveReturn(t) => t in s.removers && s.removers[t].fd == fd
    case _ => false
  }

  ghost predicate NeverDrops(before: seq<Action>, after: seq<Action>, fd: nat)
    requires Legal(before + after)
    decreases |after|
  {
    after == [] ||
    (LastStep(before, after);
     var most := after[..|after| - 1];
     NeverDrops(before, most, fd) && !Drops(After(before + most), after[|after| - 1], fd))
  }

  /** fd is registered with ch and watched as the flag says. */
  ghost predicate Watched(s: State, fd: nat, flag: Flag, ch: nat) {
    && fd in s.callbacks && s.callbacks[fd] == ch
    && (flag != WrOnly ==> fd in s.rfds) && (flag != RdOnly ==> fd in s.wfds)
  }

  lemma WatchedStays(s: State, a: Action, fd: nat, flag: Flag, ch: nat)
    requires Enabled(s, a) && Watched(s, fd, flag, ch) && !Drops(s, a, fd)
    ensures Watched(Do(s, a), fd, flag, ch)
  {}

  /** What add_callback registers stays registered and watched until it is dropped, and
      every select in between looks at it. */
  lemma {:induction false} AddedStays(before: seq<Action>, fd: nat, flag: Flag, ch: nat, after: seq<Action>)
    requires Legal(before) && Enabled(After(before), AddCallback(fd, flag, ch))
    requires Legal(before + [AddCallback(fd, flag, ch)] + after)
    requires NeverDrops(before + [AddCallback(fd, flag, ch)], after, fd)
    ensures Watched(After(before + [AddCallback(fd, flag, ch)] + after), fd, flag, ch)
    decreases |after|
  {
    var start := before + [AddCallback(fd, flag, ch)];
    if after == [] {
      assert start + after == start && start[..|start| - 1] == before;
    } else {
      LastStep(start, after);
      AddedStays(before, fd, flag, ch, after[..|after| - 1]);
      WatchedStays(After(start + after[..|after| - 1]), after[|after| - 1], fd, flag, ch);
    }
  }

  /** The next select looks at all that is watched. */
  lemma SnapshotSeesAll(s: State, fd: nat, flag: Flag, ch: nat)
    requires Enabled(s, Snapshot) && Watched(s, fd, flag, ch)
    ensures var pc := Do(s, Snapshot).pc;
            pc.Selecting? && (flag != WrOnly ==> fd in pc.r) && (flag != RdOnly ==> fd in pc.w)
  {}

  /** What del_callback takes off is off: the sets as the flag says, and the callback
      when nothing of the descriptor is watched any more. */
  lemma DeletedIsOff(s: State, fd: nat, flag: Flag)
    requires Enabled(s, DelCallback(fd, flag))
    ensures var s' := Do(s, DelCallback(fd, flag));
            && (flag != WrOnly ==> fd !in s'.rfds) && (flag != RdOnly ==> fd !in s'.wfds)
            && (fd !in s'.rfds && fd !in s'.wfds ==> fd !in s'.callbacks)
            && (fd in s'.rfds || fd in s'.wfds ==> s'.callbacks == s.callbacks)
            && (forall g :: g != fd && g in s.callbacks ==> g in s'.callbacks && s'.callbacks[g] == s.callbacks[g])
            && (fd in s.rfds && flag == WrOnly ==> fd in s'.rfds)
            && (fd in s.wfds && flag == RdOnly ==> fd in s'.wfds)
  {}
}
