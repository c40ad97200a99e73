/** The lock map and what one critical section of the lock server does to it. */
module LockSpec {

  datatype LockState = FREE | LOCKED

  const OK := 0
  const RPCERR := 2

  /** The owner of a free lock. */
  const NOBODY := -1

  datatype Handle = Handle(state: LockState, clt: int)

  type Locks = map<nat, Handle>

  function Lookup(locks: Locks, lid: nat): Handle {
    if lid in locks then locks[lid] else Handle(FREE, NOBODY)
  }

  predicate IsFree(locks: Locks, lid: nat) {
    Lookup(locks, lid).state == FREE
  }

  /** One pass of `acquire` with the mutex held: take a free lock, else leave it. */
  function Pass(locks: Locks, clt: int, lid: nat): Locks {
    locks[lid := if IsFree(locks, lid) then Handle(LOCKED, clt) else Lookup(locks, lid)]
  }

  predicate Releases(locks: Locks, clt: int, lid: nat) {
    lid in locks && locks[lid].clt == clt
  }

  function Release(locks: Locks, clt: int, lid: nat): Locks {
    if Releases(locks, clt, lid) then locks[lid := Handle(FREE, NOBODY)] else locks
  }

  ghost predicate Consistent(locks: Locks) {
    forall lid :: lid in locks ==> (locks[lid].state == LOCKED <==> locks[lid].clt != NOBODY)
  }

  ghost function Held(locks: Locks): set<nat> {
    set lid | lid in locks && locks[lid].state == LOCKED
  }

  lemma PassHolds(locks: Locks, clt: int, lid: nat)
    requires IsFree(locks, lid) && clt != NOBODY && Consistent(locks)
    ensures Held(Pass(locks, clt, lid)) == Held(locks) + {lid} && lid !in Held(locks)
    ensures Consistent(Pass(locks, clt, lid))
  {}

  lemma PassKeeps(locks: Locks, clt: int, lid: nat)
    requires !IsFree(locks, lid) && Consistent(locks)
    ensures Pass(locks, clt, lid) == locks
  {}

  lemma ReleaseFrees(locks: Locks, clt: int, lid: nat)
    requires Releases(locks, clt, lid) && clt != NOBODY && Consistent(locks)
    ensures Held(Release(locks, clt, lid)) == Held(locks) - {lid} && lid in Held(locks)
    ensures Consistent(Release(locks, clt, lid))
  {}
}

/** `lock_server`: each method is one critical section of its mutex. */
module LockServer {
  import opened LockSpec

  class LockServer {
    var locks: Locks
    var nacquire: int

    ghost predicate Valid()
      reads this
    {
      Consistent(locks) && nacquire == |Held(locks)|
    }

    constructor ()
      ensures Valid() && locks == map[]
    {
      locks, nacquire := map[], 0;
    }

    /** `stat`: the number of locks now held. */
    method Stat() returns (r: int)
      requires Valid()
      ensures r == |Held(locks)|
    {
      r := nacquire;
    }

    /** One pass of `acquire`: from entry or wake-up to the grant or the next wait. */
    method AcquirePass(clt: int, lid: nat) returns (granted: bool)
      requires Valid() && clt != NOBODY
      modifies this
      ensures Valid() && locks == Pass(old(locks), clt, lid)
      ensures granted <==> IsFree(old(locks), lid)
      ensures Held(locks) == old(Held(locks)) + {lid}
    {
      if lid !in locks {
        locks := locks[lid := Handle(FREE, NOBODY)];
      }
      if locks[lid].state != FREE {
        PassKeeps(old(locks), clt, lid);
        return false;
      }
      PassHolds(old(locks), clt, lid);
      nacquire := nacquire + 1;
      locks := locks[lid := Handle(LOCKED, clt)];
      assert locks == Pass(old(locks), clt, lid);
      granted := true;
    }

    /** `release`: `signal` says whether a waiter is notified. */
    method Release(clt: int, lid: nat) returns (status: int, signal: bool)
      requires Valid() && clt != NOBODY
      modifies this
      ensures Valid() && locks == LockSpec.Release(old(locks), clt, lid)
      ensures status == if Releases(old(locks), clt, lid) then OK else RPCERR
      ensures signal <==> status == OK
      ensures status == OK ==> Held(locks) == old(Held(locks)) - {lid} && lid in old(Held(locks))
      ensures status != OK ==> locks == old(locks)
    {
      if lid in locks {
        if locks[lid].clt != clt {
          return RPCERR, false;
        }
        ReleaseFrees(locks, clt, lid);
        locks := locks[lid := Handle(FREE, NOBODY)];
        nacquire := nacquire - 1;
        return OK, true;
      }
      return RPCERR, false;
    }
  }
}

/** All handler threads of the lock server at once, with the condition variable of
    each lock: Mesa semantics, barging newcomers and spurious wake-ups. */
module LockWaiting {
  import opened Wrappers
  import opened LockSpec

  /** A thread inside `acquire` that did not find its lock free. */
  datatype Waiter = Waiter(clt: int, lid: nat)

  datatype Event = Granted(lid: nat, clt: int) | Freed(lid: nat, clt: int)

  /** `asleep` are blocked in the wait; `woken` have left it and will take the mutex
      and recheck.  `log` is history. */
  datatype State = State(locks: Locks, nacquire: int,
                         asleep: map<nat, Waiter>, woken: map<nat, Waiter>, log: seq<Event>)

  datatype Action =
    | Arrive(t: nat, clt: int, lid: nat)
    | Recheck(t: nat)
    | Release(clt: int, lid: nat, wake: Option<nat>)
    | Spurious(t: nat)

  const Init := State(map[], 0, map[], map[], [])

  ghost predicate SleepsOn(s: State, t: nat, lid: nat) {
    t in s.asleep && s.asleep[t].lid == lid
  }

  ghost predicate SomeoneSleepsOn(s: State, lid: nat) {
    exists t :: SleepsOn(s, t, lid)
  }

  /** A signal wakes a sleeper of that lock if there is one. */
  ghost predicate Signal(s: State, lid: nat, wake: Option<nat>) {
    match wake
    case None => !SomeoneSleepsOn(s, lid)
    case Some(t) => SleepsOn(s, t, lid)
  }

  ghost predicate Enabled(s: State, a: Action) {
    match a
    case Arrive(t, clt, lid) => t !in s.asleep && t !in s.woken && clt != NOBODY
    case Recheck(t) => t in s.woken
    case Release(clt, lid, wake) =>
      clt != NOBODY && if Releases(s.locks, clt, lid) then Signal(s, lid, wake) else wake == None
    case Spurious(t) => t in s.asleep
  }

  ghost function TryLock(s: State, t: nat, w: Waiter): State {
    if IsFree(s.locks, w.lid) then
      s.(locks := Pass(s.locks, w.clt, w.lid), nacquire := s.nacquire + 1, woken := s.woken - {t},
         log := s.log + [Granted(w.lid, w.clt)])
    else
      s.(locks := Pass(s.locks, w.clt, w.lid), asleep := s.asleep[t := w], woken := s.woken - {t})
  }

  ghost function Wake(s: State, t: nat): State
    requires t in s.asleep
  {
    s.(asleep := s.asleep - {t}, woken := s.woken[t := s.asleep[t]])
  }

  ghost function Do(s: State, a: Action): State
    requires Enabled(s, a)
  {
    match a
    case Arrive(t, clt, lid) => TryLock(s, t, Waiter(clt, lid))
    case Recheck(t) => TryLock(s, t, s.woken[t])
    case Release(clt, lid, wake) =>
      if Releases(s.locks, clt, lid) then
        var s' := s.(locks := LockSpec.Release(s.locks, clt, lid), nacquire := s.nacquire - 1,
                     log := s.log + [Freed(lid, clt)]);
        if wake.Some? then Wake(s', wake.value) else s'
      else s
    case Spurious(t) => Wake(s, t)
  }

  ghost predicate Legal(acts: seq<Action>)
    decreases |acts|, 0
  {
    acts == [] ||
    (Legal(acts[..|acts| - 1]) && Enabled(After(acts[..|acts| - 1]), acts[|acts| - 1]))
  }

  ghost function After(acts: seq<Action>): State
    requires Legal(acts)
    decreases |acts|, 1
  {
    if acts == [] then Init else Do(After(acts[..|acts| - 1]), acts[|acts| - 1])
  }

  /** The clients whose acquires of lid are not matched by a release. */
  ghost function Unmatched(log: seq<Event>, lid: nat): multiset<int> {
    if log == [] then multiset{}
    else
      var before, e := Unmatched(log[..|log| - 1], lid), log[|log| - 1];
      if e.lid != lid then before
      else match e
        case Granted(_, clt) => before + multiset{clt}
        case Freed(_, clt) => before - multiset{clt}
  }

  lemma UnmatchedStep(log: seq<Event>, e: Event, lid: nat)
    ensures Unmatched(log + [e], lid) ==
            if e.lid != lid then Unmatched(log, lid)
            else if e.Granted? then Unmatched(log, lid) + multiset{e.clt}
            else Unmatched(log, lid) - multiset{e.clt}
  {
    assert (log + [e])[..|log|] == log;
  }

  ghost predicate SomeoneWokenFor(s: State, lid: nat) {
    exists t :: t in s.woken && s.woken[t].lid == lid
  }

  /** The lock's record agrees with the acquires and releases so far. */
  ghost predicate OwnerOnRecord(s: State, lid: nat) {
    var h := Lookup(s.locks, lid);
    Unmatched(s.log, lid) == if h.state == LOCKED then multiset{h.clt} else multiset{}
  }

  ghost predicate NoLostWakeup(s: State, lid: nat) {
    IsFree(s.locks, lid) && SomeoneSleepsOn(s, lid) ==> SomeoneWokenFor(s, lid)
  }

  ghost predicate Inv(s: State) {
    && Consistent(s.locks) && s.nacquire == |Held(s.locks)|
    && (forall t :: t in s.asleep ==> t !in s.woken && s.asleep[t].clt != NOBODY)
    && (forall t :: t in s.woken ==> s.woken[t].clt != NOBODY)
    && (forall lid :: OwnerOnRecord(s, lid))
    && (forall lid :: NoLostWakeup(s, lid))
  }

  lemma TryLockKeepsRecord(s: State, t: nat, w: Waiter, lid: nat)
    requires OwnerOnRecord(s, lid) && Consistent(s.locks) && w.clt != NOBODY
    ensures OwnerOnRecord(TryLock(s, t, w), lid)
  {
    UnmatchedStep(s.log, Granted(w.lid, w.clt), lid);
  }

  lemma TryLockKeepsWakeups(s: State, t: nat, w: Waiter, lid: nat)
    requires NoLostWakeup(s, lid) && w.clt != NOBODY
    requires t in s.woken ==> s.woken[t] == w
    ensures NoLostWakeup(TryLock(s, t, w), lid)
  {
    StillWoken(s, TryLock(s, t, w), lid, w.lid);
  }

  lemma TryLockKeeps(s: State, t: nat, w: Waiter)
    requires Inv(s) && t !in s.asleep && w.clt != NOBODY
    requires t in s.woken ==> s.woken[t] == w
    ensures Inv(TryLock(s, t, w))
  {
    forall lid
      ensures OwnerOnRecord(TryLock(s, t, w), lid) && NoLostWakeup(TryLock(s, t, w), lid)
    {
      assert OwnerOnRecord(s, lid) && NoLostWakeup(s, lid);
      TryLockKeepsRecord(s, t, w, lid);
      TryLockKeepsWakeups(s, t, w, lid);
    }
    if IsFree(s.locks, w.lid) {
      PassHolds(s.locks, w.clt, w.lid);
    } else {
      PassKeeps(s.locks, w.clt, w.lid);
    }
  }

  /** Taking one waiter off the woken set does not touch the other locks. */
  lemma StillWoken(s: State, s': State, lid: nat, other: nat)
    requires lid != other ==>
      && (forall t :: t in s.woken && s.woken[t].lid == lid ==> t in s'.woken && s'.woken[t] == s.woken[t])
      && (forall t :: SleepsOn(s', t, lid) ==> SleepsOn(s, t, lid))
    ensures lid != other && SomeoneWokenFor(s, lid) ==> SomeoneWokenFor(s', lid)
    ensures lid != other && SomeoneSleepsOn(s', lid) ==> SomeoneSleepsOn(s, lid)
  {
    if lid != other && SomeoneWokenFor(s, lid) {
      var t :| t in s.woken && s.woken[t].lid == lid;
      assert t in s'.woken && s'.woken[t].lid == lid;
    }
  }

  lemma WakeKeeps(s: State, t: nat)
    requires Inv(s) && t in s.asleep
    ensures Inv(Wake(s, t))
  {
    var s' := Wake(s, t);
    forall lid
      ensures OwnerOnRecord(s', lid) && NoLostWakeup(s', lid)
    {
      assert OwnerOnRecord(s, lid) && NoLostWakeup(s, lid);
      assert t in s'.woken && s'.woken[t] == s.asleep[t];
      StillWoken(s, s', lid, s.asleep[t].lid);
    }
  }

  lemma ReleaseKeepsRecord(s: State, clt: int, lid: nat, wake: Option<nat>, l: nat)
    requires Enabled(s, Release(clt, lid, wake)) && Releases(s.locks, clt, lid)
    requires OwnerOnRecord(s, l) && Consistent(s.locks)
    ensures OwnerOnRecord(Do(s, Release(clt, lid, wake)), l)
  {
    UnmatchedStep(s.log, Freed(lid, clt), l);
  }

  lemma ReleaseKeepsWakeups(s: State, clt: int, lid: nat, wake: Option<nat>, l: nat)
    requires Enabled(s, Release(clt, lid, wake)) && Releases(s.locks, clt, lid)
    requires NoLostWakeup(s, l) && forall t :: t in s.asleep ==> t !in s.woken
    ensures NoLostWakeup(Do(s, Release(clt, lid, wake)), l)
  {
    var s' := Do(s, Release(clt, lid, wake));
    StillWoken(s, s', l, lid);
    if l == lid && wake.Some? {
      assert wake.value in s'.woken && s'.woken[wake.value].lid == lid;
    }
    if l == lid && wake.None? && SomeoneSleepsOn(s', l) {
      var t :| SleepsOn(s', t, l);
      assert SleepsOn(s, t, l);
    }
  }

  lemma ReleaseKeeps(s: State, clt: int, lid: nat, wake: Option<nat>)
    requires Inv(s) && Enabled(s, Release(clt, lid, wake)) && Releases(s.locks, clt, lid)
    ensures Inv(Do(s, Release(clt, lid, wake)))
  {
    var s' := Do(s, Release(clt, lid, wake));
    ReleaseFrees(s.locks, clt, lid);
    forall l
      ensures OwnerOnRecord(s', l) && NoLostWakeup(s', l)
    {
      assert OwnerOnRecord(s, l) && NoLostWakeup(s, l);
      ReleaseKeepsRecord(s, clt, lid, wake, l);
      ReleaseKeepsWakeups(s, clt, lid, wake, l);
    }
  }

  lemma {:induction false} Safe(acts: seq<Action>)
    requires Legal(acts)
    ensures Inv(After(acts))
  {
    if acts != [] {
      Safe(acts[..|acts| - 1]);
      var s := After(acts[..|acts| - 1]);
      match acts[|acts| - 1]
      case Arrive(t, clt, lid) => TryLockKeeps(s, t, Waiter(clt, lid));
      case Recheck(t) => TryLockKeeps(s, t, s.woken[t]);
      case Release(clt, lid, wake) =>
        if Releases(s.locks, clt, lid) {
          ReleaseKeeps(s, clt, lid, wake);
        }
      case Spurious(t) => WakeKeeps(s, t);
    }
  }

  /** No wake-up is lost: while a lock is free and a thread sleeps on it, some woken
      waiter of that lock is still to recheck it, and its recheck would succeed. */
  lemma FreeLockIsRechecked(acts: seq<Action>, lid: nat, sleeper: nat) returns (t: nat)
    requires Legal(acts) && IsFree(After(acts).locks, lid) && SleepsOn(After(acts), sleeper, lid)
    ensures t in After(acts).woken && After(acts).woken[t].lid == lid
    ensures Enabled(After(acts), Recheck(t))
    ensures Lookup(Do(After(acts), Recheck(t)).locks, lid) == Handle(LOCKED, After(acts).woken[t].clt)
  {
    Safe(acts);
    assert NoLostWakeup(After(acts), lid);
    t :| t in After(acts).woken && After(acts).woken[t].lid == lid;
  }

  /** A lock is LOCKED iff it has an owner; it then has exactly one acquire not yet
      released, by that owner; and nacquire counts the locked locks. */
  lemma LockRecords(acts: seq<Action>, lid: nat)
    requires Legal(acts)
    ensures var s := After(acts); var h := Lookup(s.locks, lid);
            && (h.state == LOCKED <==> h.clt != NOBODY)
            && (h.state == LOCKED ==> Unmatched(s.log, lid) == multiset{h.clt})
            && (h.state == FREE ==> Unmatched(s.log, lid) == multiset{})
            && s.nacquire == |Held(s.locks)|
  {
    Safe(acts);
    assert OwnerOnRecord(After(acts), lid);
  }
}
