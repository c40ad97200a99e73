/** The bounded blocking queue: the critical sections of `enq` and `deq`, with the
    threads that wait on the two condition variables. */
module FifoSpec {
  import opened Wrappers

  /** max == 0 means no limit.  Asleep threads are blocked in a wait; woken ones have
      left it and will recheck with the mutex held.  `carrying`: what a producer that
      had to wait brings.  `enqueued` and `dequeued` are history. */
  datatype State<T> = State(q: seq<T>, max: nat,
                            asleepC: set<nat>, wokenC: set<nat>,
                            asleepP: set<nat>, wokenP: set<nat>, carrying: map<nat, T>,
                            enqueued: seq<T>, dequeued: seq<T>)

  function Init<T>(max: nat): State<T> {
    State([], max, {}, {}, {}, {}, map[], [], [])
  }

  predicate HasRoom<T>(s: State<T>) {
    s.max == 0 || |s.q| < s.max
  }

  /** A signal wakes one of the sleepers, if there is one. */
  predicate Wakes(asleep: set<nat>, wake: Option<nat>) {
    match wake
    case None => asleep == {}
    case Some(t) => t in asleep
  }

  /** Who is signalled by the pass of `enq` that stores an element. */
  predicate EnqWakes<T>(s: State<T>, wake: Option<nat>) {
    if HasRoom(s) then Wakes(s.asleepC, wake) else wake == None
  }

  function WakeConsumer<T>(s: State<T>, wake: Option<nat>): State<T> {
    if wake.None? then s else s.(asleepC := s.asleepC - {wake.value}, wokenC := s.wokenC + {wake.value})
  }

  /** One pass of `enq` by thread t: store and signal, or wait, or give up. */
  function EnqPass<T>(s: State<T>, t: nat, e: T, blocking: bool, wake: Option<nat>): State<T> {
    if HasRoom(s) then
      WakeConsumer(s.(q := s.q + [e], wokenP := s.wokenP - {t}, enqueued := s.enqueued + [e]), wake)
    else if blocking then
      s.(asleepP := s.asleepP + {t}, wokenP := s.wokenP - {t}, carrying := s.carrying[t := e])
    else s.(wokenP := s.wokenP - {t})
  }

  /** `deq` signals has_space_ when a limited queue is below its limit. */
  predicate DeqWakes<T>(s: State<T>, wake: Option<nat>) {
    if s.q != [] && s.max > 0 && |s.q| - 1 < s.max then Wakes(s.asleepP, wake) else wake == None
  }

  function WakeProducer<T>(s: State<T>, wake: Option<nat>): State<T>
  {
    if wake.None? then s else s.(asleepP := s.asleepP - {wake.value}, wokenP := s.wokenP + {wake.value})
  }

  /** One pass of `deq` by thread t: take the front and signal, or wait. */
  function DeqPass<T>(s: State<T>, t: nat, wake: Option<nat>): State<T> {
    if s.q == [] then s.(asleepC := s.asleepC + {t}, wokenC := s.wokenC - {t})
    else
      WakeProducer(s.(q := s.q[1..], wokenC := s.wokenC - {t}, dequeued := s.dequeued + [s.q[0]]), wake)
  }

  /** While a consumer sleeps there are at least as many woken consumers as elements. */
  ghost predicate ConsumersServed<T>(s: State<T>) {
    s.asleepC !! s.wokenC && (s.asleepC != {} ==> |s.wokenC| >= |s.q|)
  }

  /** While a producer sleeps there are at least as many woken producers as free places. */
  ghost predicate ProducersServed<T>(s: State<T>) {
    && s.asleepP !! s.wokenP && s.asleepP + s.wokenP <= s.carrying.Keys
    && (s.asleepP != {} ==> s.max > 0 && |s.wokenP| >= s.max - |s.q|)
  }

  /** No wake-up is lost, and the queue keeps its limit and its order. */
  ghost predicate Inv<T>(s: State<T>) {
    && ConsumersServed(s) && ProducersServed(s)
    && (s.max > 0 ==> |s.q| <= s.max)
    && s.enqueued == s.dequeued + s.q
  }

  lemma StoreServesConsumers<T>(s: State<T>, t: nat, e: T, blocking: bool, wake: Option<nat>)
    requires ConsumersServed(s) && HasRoom(s) && Wakes(s.asleepC, wake)
    ensures ConsumersServed(EnqPass(s, t, e, blocking, wake))
  {
    if wake.Some? {
      assert |s.wokenC + {wake.value}| == |s.wokenC| + 1;
    }
  }

  lemma StoreServesProducers<T>(s: State<T>, t: nat, e: T, blocking: bool, wake: Option<nat>)
    requires ProducersServed(s) && HasRoom(s)
    ensures ProducersServed(EnqPass(s, t, e, blocking, wake))
  {
    assert |s.wokenP - {t}| >= |s.wokenP| - 1;
  }

  lemma NoRoomKeeps<T>(s: State<T>, t: nat, e: T, blocking: bool, wake: Option<nat>)
    requires Inv(s) && t !in s.asleepP && !HasRoom(s)
    ensures Inv(EnqPass(s, t, e, blocking, wake))
  {
    assert s.max == |s.q|;
  }

  lemma EnqPassKeeps<T>(s: State<T>, t: nat, e: T, blocking: bool, wake: Option<nat>)
    requires Inv(s) && t !in s.asleepP && EnqWakes(s, wake)
    ensures Inv(EnqPass(s, t, e, blocking, wake))
  {
    if HasRoom(s) {
      StoreServesConsumers(s, t, e, blocking, wake);
      StoreServesProducers(s, t, e, blocking, wake);
    } else {
      NoRoomKeeps(s, t, e, blocking, wake);
    }
  }

  /** What a pass of `deq` changes on the consumers' side. */
  lemma DeqPassFrame<T>(s: State<T>, t: nat, wake: Option<nat>)
    ensures var s' := DeqPass(s, t, wake);
            && s'.enqueued == s.enqueued && s'.max == s.max
            && s'.wokenC == s.wokenC - {t}
            && s'.asleepC == (if s.q == [] then s.asleepC + {t} else s.asleepC)
            && s'.q == (if s.q == [] then [] else s.q[1..])
            && s'.dequeued == (if s.q == [] then s.dequeued else s.dequeued + [s.q[0]])
            && s'.asleepP + s'.wokenP <= s.asleepP + s.wokenP + (if wake.Some? then {wake.value} else {})
  {}

  lemma DeqPassKeeps<T>(s: State<T>, t: nat, wake: Option<nat>)
    requires Inv(s) && t !in s.asleepC && DeqWakes(s, wake)
    ensures Inv(DeqPass(s, t, wake))
  {
    if s.q != [] {
      TakeKeeps(s, t, wake);
    }
  }

  lemma TakeKeeps<T>(s: State<T>, t: nat, wake: Option<nat>)
    requires Inv(s) && s.q != [] && DeqWakes(s, wake)
    ensures Inv(DeqPass(s, t, wake))
  {
    TakeServesConsumers(s, t, wake);
    TakeServesProducers(s, t, wake);
    assert s.q == [s.q[0]] + s.q[1..];
  }

  lemma TakeServesConsumers<T>(s: State<T>, t: nat, wake: Option<nat>)
    requires ConsumersServed(s) && s.q != []
    ensures ConsumersServed(DeqPass(s, t, wake))
  {
    assert |s.wokenC - {t}| >= |s.wokenC| - 1;
  }

  lemma TakeServesProducers<T>(s: State<T>, t: nat, wake: Option<nat>)
    requires ProducersServed(s) && s.q != [] && DeqWakes(s, wake) && (s.max > 0 ==> |s.q| <= s.max)
    ensures ProducersServed(DeqPass(s, t, wake))
  {
    if wake.Some? {
      assert |s.wokenP + {wake.value}| == |s.wokenP| + 1;
    }
  }

  lemma WakeConsumerKeeps<T>(s: State<T>, t: nat)
    requires Inv(s) && t in s.asleepC
    ensures Inv(WakeConsumer(s, Some(t)))
  {
    assert |s.wokenC + {t}| == |s.wokenC| + 1;
  }

  lemma WakeProducerKeeps<T>(s: State<T>, t: nat)
    requires Inv(s) && t in s.asleepP
    ensures Inv(WakeProducer(s, Some(t)))
  {
    assert |s.wokenP + {t}| == |s.wokenP| + 1;
  }
}

/** `fifo<T>`: the queue and its two condition variables. */
module Fifo {
  import opened Wrappers
  import opened FifoSpec

  datatype Outcome = Stored | MustWait | Refused

  class Fifo<T> {
    var q: seq<T>
    const max: nat

    // non_empty_c_ and has_space_c_: who sleeps on them, and who was woken and has not
    // got the mutex yet
    var asleepC: set<nat>
    var wokenC: set<nat>
    var asleepP: set<nat>
    var wokenP: set<nat>

    /** The arguments of the producers that wait inside `enq`. */
    var carrying: map<nat, T>

    ghost var enqueued: seq<T>
    ghost var dequeued: seq<T>

    ghost function View(): State<T>
      reads this
    {
      State(q, max, asleepC, wokenC, asleepP, wokenP, carrying, enqueued, dequeued)
    }

    constructor (limit: nat)
      ensures View() == FifoSpec.Init(limit)
    {
      q, max := [], limit;
      asleepC, wokenC, asleepP, wokenP, carrying := {}, {}, {}, {}, map[];
      enqueued, dequeued := [], [];
    }

    /** One pass of `enq` by thread t, on entry or after a wake-up; wake is the sleeper
        that the scheduler picks for the signal. */
    method Enq(t: nat, e: T, blocking: bool, wake: Option<nat>) returns (r: Outcome)
      requires EnqWakes(View(), wake)
      modifies this
      ensures View() == EnqPass(old(View()), t, e, blocking, wake)
      ensures r == if max == 0 || |old(q)| < max then Stored else if blocking then MustWait else Refused
      ensures q == old(q) + if r == Stored then [e] else []
    {
      wokenP := wokenP - {t};
      if max == 0 || |q| < max {
        q := q + [e];
        enqueued := enqueued + [e];
        SignalNonEmpty(wake);
        return Stored;
      }
      if !blocking {
        return Refused;
      }
      asleepP, carrying := asleepP + {t}, carrying[t := e];
      r := MustWait;
    }

    method SignalNonEmpty(wake: Option<nat>)
      modifies this`asleepC, this`wokenC
      ensures View() == WakeConsumer(old(View()), wake)
    {
      if wake.Some? {
        asleepC, wokenC := asleepC - {wake.value}, wokenC + {wake.value};
      }
    }

    /** One pass of `deq` by thread t: the front element, or none and t waits. */
    method Deq(t: nat, wake: Option<nat>) returns (e: Option<T>)
      requires DeqWakes(View(), wake)
      modifies this
      ensures View() == DeqPass(old(View()), t, wake)
      ensures old(q) == (if e.Some? then [e.value] else []) + q
      ensures e.None? <==> old(q) == []
    {
      wokenC := wokenC - {t};
      if q == [] {
        asleepC := asleepC + {t};
        return None;
      }
      e := Some(q[0]);
      dequeued := dequeued + [q[0]];
      q := q[1..];
      if max > 0 && |q| < max {
        SignalHasSpace(wake);
      }
    }

    method SignalHasSpace(wake: Option<nat>)
      modifies this`asleepP, this`wokenP
      ensures View() == WakeProducer(old(View()), wake)
    {
      if wake.Some? {
        asleepP, wokenP := asleepP - {wake.value}, wokenP + {wake.value};
      }
    }
  }
}

/** Any number of producers and consumers on one queue. */
module FifoWaiting {
  import opened Wrappers
  import opened FifoSpec

  datatype Action<T> =
    | Enq(t: nat, e: T, blocking: bool, wake: Option<nat>)
    | EnqAgain(t: nat, wake: Option<nat>)
    | Deq(t: nat, wake: Option<nat>)
    | DeqAgain(t: nat, wake: Option<nat>)
    | SpuriousC(t: nat)
    | SpuriousP(t: nat)

  ghost predicate Enabled<T>(s: State<T>, a: Action<T>) {
    match a
    case Enq(t, _, _, wake) => t !in s.asleepP && t !in s.wokenP && EnqWakes(s, wake)
    case EnqAgain(t, wake) => t in s.wokenP && t !in s.asleepP && t in s.carrying && EnqWakes(s, wake)
    case Deq(t, wake) => t !in s.asleepC && t !in s.wokenC && DeqWakes(s, wake)
    case DeqAgain(t, wake) => t in s.wokenC && t !in s.asleepC && DeqWakes(s, wake)
    case SpuriousC(t) => t in s.asleepC
    case SpuriousP(t) => t in s.asleepP
  }

  ghost function Do<T>(s: State<T>, a: Action<T>): State<T>
    requires Enabled(s, a)
  {
    match a
    case Enq(t, e, blocking, wake) => EnqPass(s, t, e, blocking, wake)
    case EnqAgain(t, wake) => EnqPass(s, t, s.carrying[t], true, wake)
    case Deq(t, wake) => DeqPass(s, t, wake)
    case DeqAgain(t, wake) => DeqPass(s, t, wake)
    case SpuriousC(t) => WakeConsumer(s, Some(t))
    case SpuriousP(t) => WakeProducer(s, Some(t))
  }

  ghost predicate Legal<T>(max: nat, acts: seq<Action<T>>)
    decreases |acts|, 0
  {
    acts == [] ||
    (Legal(max, acts[..|acts| - 1]) && Enabled(After(max, acts[..|acts| - 1]), acts[|acts| - 1]))
  }

  ghost function After<T>(max: nat, acts: seq<Action<T>>): State<T>
    requires Legal(max, acts)
    decreases |acts|, 1
  {
    if acts == [] then Init(max) else Do(After(max, acts[..|acts| - 1]), acts[|acts| - 1])
  }

  lemma StepKeeps<T>(s: State<T>, a: Action<T>)
    requires Inv(s) && Enabled(s, a)
    ensures Inv(Do(s, a)) && Do(s, a).max == s.max
  {
    match a
    case Enq(t, e, blocking, wake) => EnqPassKeeps(s, t, e, blocking, wake);
    case EnqAgain(t, wake) => EnqPassKeeps(s, t, s.carrying[t], true, wake);
    case Deq(t, wake) => DeqPassKeeps(s, t, wake);
    case DeqAgain(t, wake) => DeqPassKeeps(s, t, wake);
    case SpuriousC(t) => WakeConsumerKeeps(s, t);
    case SpuriousP(t) => WakeProducerKeeps(s, t);
  }

  lemma {:induction false} Safe<T>(max: nat, acts: seq<Action<T>>)
    requires Legal(max, acts)
    ensures Inv(After(max, acts)) && After(max, acts).max == max
  {
    if acts != [] {
      Safe(max, acts[..|acts| - 1]);
      StepKeeps(After(max, acts[..|acts| - 1]), acts[|acts| - 1]);
    }
  }

  /** The queue is first in first out, never over its limit, and loses no wake-up
      under barging and spurious wake-ups. */
  lemma FifoIsSafe<T>(max: nat, acts: seq<Action<T>>)
    requires Legal(max, acts)
    ensures var s := After(max, acts);
            && s.dequeued <= s.enqueued && s.enqueued == s.dequeued + s.q
            && (max > 0 ==> |s.q| <= max)
            && (s.asleepC != {} ==> |s.wokenC| >= |s.q|)
            && (s.asleepP != {} ==> |s.wokenP| >= max - |s.q|)
  {
    Safe(max, acts);
  }

  /** So nobody sleeps while the queue could serve him, unless somebody who will
      recheck is already awake. */
  lemma NobodySleepsInVain<T>(max: nat, acts: seq<Action<T>>)
    requires Legal(max, acts)
    ensures var s := After(max, acts);
            && (s.asleepC != {} && s.q != [] ==> s.wokenC != {})
            && (s.asleepP != {} && |s.q| < max ==> s.wokenP != {})
  {
    Safe(max, acts);
  }

  /** One pass of `enq` in any run: with room the element goes to the end and a sleeping
      consumer is woken; without, a blocking producer sleeps with its element and any
      other leaves the queue as it was. */
  lemma EnqExactly<T>(max: nat, acts: seq<Action<T>>, a: Action<T>, t: nat, e: T, blocking: bool, wake: Option<nat>)
    requires Legal(max, acts) && Enabled(After(max, acts), a)
    requires a == Enq(t, e, blocking, wake) ||
             (a == EnqAgain(t, wake) && blocking && e == After(max, acts).carrying[t])
    ensures var s, s' := After(max, acts), Do(After(max, acts), a);
            if max == 0 || |s.q| < max then
              && s'.q == s.q + [e] && s'.enqueued == s.enqueued + [e] && s'.asleepP == s.asleepP
              && (s.asleepC != {} ==> exists c :: c in s.asleepC && s'.wokenC == s.wokenC + {c})
            else
              && s'.q == s.q && s'.enqueued == s.enqueued && s'.wokenC == s.wokenC
              && s'.asleepP == s.asleepP + (if blocking then {t} else {})
              && (blocking ==> t in s'.carrying && s'.carrying[t] == e)
  {
    Safe(max, acts);
  }

  /** One pass of `deq` in any run: the oldest element goes, and of the producers that
      wait for the room one is woken; an empty queue puts the consumer to sleep. */
  lemma DeqExactly<T>(max: nat, acts: seq<Action<T>>, a: Action<T>, t: nat, wake: Option<nat>)
    requires Legal(max, acts) && Enabled(After(max, acts), a)
    requires a == Deq(t, wake) || a == DeqAgain(t, wake)
    ensures var s, s' := After(max, acts), Do(After(max, acts), a);
            if |s.dequeued| < |s.enqueued| then
              && s'.dequeued == s.dequeued + [s.enqueued[|s.dequeued|]] && s'.asleepC == s.asleepC
              && s.q == [s.enqueued[|s.dequeued|]] + s'.q
              && (s.asleepP != {} ==> exists p :: p in s.asleepP && s'.wokenP == s.wokenP + {p})
            else
              s'.q == [] && s'.dequeued == s.dequeued && s'.asleepC == s.asleepC + {t}
  {
    var s := After(max, acts);
    Safe(max, acts);
    DeqPassFrame(s, t, wake);
    OldestIsFront(s);
  }

  lemma OldestIsFront<T>(s: State<T>)
    requires s.enqueued == s.dequeued + s.q
    ensures s.q != [] <==> |s.dequeued| < |s.enqueued|
    ensures s.q != [] ==> s.q == [s.enqueued[|s.dequeued|]] + s.q[1..]
  {}
}
