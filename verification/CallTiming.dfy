/** The clock arithmetic of `call1` and its loop of ever longer waits. */
module CallTiming {

  const NS := 1_000_000_000
  const MS := 1_000_000

  /** The first wait, in milliseconds (`to_min`). */
  const TO_MIN := 1000

  /** After addition nsec may be a whole second. */
  datatype Timespec = Timespec(sec: int, nsec: int)

  function Total(t: Timespec): int {
    t.sec * NS + t.nsec
  }

  /** What the clock shows at an instant given in nanoseconds. */
  function Clock(n: int): (t: Timespec)
    ensures Total(t) == n && 0 <= t.nsec < NS
  {
    Timespec(n / NS, n % NS)
  }

  /** Division in C. */
  function CDiv(a: int, b: int): int
    requires b > 0
  {
    if a >= 0 then a / b else -(-a / b)
  }

  function CMod(a: int, b: int): int
    requires b > 0
  {
    a - CDiv(a, b) * b
  }

  /** `add_timespec`: no nanosecond is lost, and the result is a whole second off the
      normal form exactly when that is where the subtraction stops. */
  method AddTimespec(a: Timespec, b: int) returns (r: Timespec)
    requires a.nsec + CMod(b, 1000) * MS >= 0
    ensures Total(r) == Total(a) + b * MS
    ensures 0 <= r.nsec <= NS && r.sec >= a.sec + CDiv(b, 1000)
    ensures r.nsec == 0 <==> a.nsec + CMod(b, 1000) * MS == 0
    ensures r.nsec <= a.nsec + CMod(b, 1000) * MS
    ensures r.nsec % NS == (a.nsec + CMod(b, 1000) * MS) % NS
  {
    r := Timespec(a.sec + CDiv(b, 1000), a.nsec + CMod(b, 1000) * MS);
    while r.nsec > NS
      invariant Total(r) == Total(a) + b * MS
      invariant 0 <= r.nsec <= a.nsec + CMod(b, 1000) * MS && r.sec >= a.sec + CDiv(b, 1000)
      invariant r.nsec == 0 <==> a.nsec + CMod(b, 1000) * MS == 0
      invariant r.nsec % NS == (a.nsec + CMod(b, 1000) * MS) % NS
    {
      r := Timespec(r.sec + 1, r.nsec - NS);
    }
  }

  function CmpTimespec(a: Timespec, b: Timespec): int {
    if a.sec > b.sec then 1
    else if a.sec < b.sec then -1
    else if a.nsec > b.nsec then 1
    else if a.nsec < b.nsec then -1
    else 0
  }

  predicate Added(t: Timespec) {
    0 <= t.nsec <= NS
  }

  /** The comparison is that of the instants, except that it tells the two names of a
      whole second apart. */
  lemma CmpIsTheOrderOfInstants(a: Timespec, b: Timespec)
    requires Added(a) && Added(b)
    ensures CmpTimespec(a, b) == -CmpTimespec(b, a)
    ensures CmpTimespec(a, b) == 0 <==> a == b
    ensures CmpTimespec(a, b) < 0 <==>
            Total(a) < Total(b) || (a.nsec == NS && b == Timespec(a.sec + 1, 0))
  {
    if a.sec < b.sec {
      assert Total(b) - Total(a) == (b.sec - a.sec) * NS + b.nsec - a.nsec;
    } else if a.sec > b.sec {
      assert Total(a) - Total(b) == (a.sec - b.sec) * NS + a.nsec - b.nsec;
    }
  }

  /** What `pthread_cond_timedwait` accepts as a deadline. */
  predicate Valid(t: Timespec) {
    0 <= t.nsec < NS
  }

  // ---------- One wait ----------

  /** The return of `pthread_cond_timedwait`: 0, ETIMEDOUT or EINVAL. */
  datatype Answer = Success | TimedOut | Invalid

  /** An answer, and `ca.done` when it is given. */
  datatype Turn = Turn(answer: Answer, done: bool)

  /** The surroundings of one wait: whether the reply is there at its start, and the
      turns of its loop should it go on for ever. */
  datatype Wait = Wait(there: bool, turns: nat -> Turn)

  datatype Outcome = Replied | Expired | Stuck

  /** The loop is left after turn k, if not before. */
  predicate Leaves(w: Wait, k: nat) {
    w.turns(k).answer == TimedOut || w.turns(k).done
  }

  ghost predicate IsLeft(w: Wait) {
    w.there || exists k :: Leaves(w, k)
  }

  /** The loop is left with a reply. */
  ghost predicate Brings(w: Wait) {
    w.there || exists k :: LeavesFirst(w, k) && w.turns(k).done
  }

  ghost predicate LeavesFirst(w: Wait, k: nat) {
    Leaves(w, k) && forall j :: 0 <= j < k ==> !Leaves(w, j)
  }

  /** An invalid deadline is refused at once, with the mutex held all along, so that
      nobody can store the reply; a valid one passes sooner or later. */
  ghost predicate Possible(deadline: Timespec, w: Wait) {
    && (forall k :: w.turns(k).answer == Invalid <==> !Valid(deadline))
    && (!Valid(deadline) ==> forall k :: w.turns(k).done == w.there)
    && (Valid(deadline) ==> exists k :: Leaves(w, k))
  }

  /** The inner loop of `call1`.  Stuck is returned where the source spins for ever. */
  method WaitOnce(deadline: Timespec, w: Wait) returns (r: Outcome)
    requires Possible(deadline, w)
    ensures r == Stuck <==> !IsLeft(w)
    ensures r == Stuck <==> !w.there && !Valid(deadline)
    ensures r == Replied <==> Brings(w)
    ensures r == Expired ==> Valid(deadline)
  {
    if !w.there && !Valid(deadline) {
      return Stuck;
    }
    ghost var last: nat := 0;
    if !w.there {
      last :| Leaves(w, last);
    }
    var done, k := w.there, 0;
    while !done
      invariant k <= last
      invariant forall j :: 0 <= j < k ==> !Leaves(w, j)
      invariant done <==> w.there
      invariant !done ==> Leaves(w, last)
      decreases last - k
    {
      var t := w.turns(k);
      if t.answer == TimedOut || t.done {
        assert LeavesFirst(w, k);
        return if t.done then Replied else Expired;
      }
      k := k + 1;
    }
    r := Replied;
  }

  // ---------- All waits ----------

  function Pow2(n: nat): (p: nat)
    ensures p > 0
  {
    if n == 0 then 1 else 2 * Pow2(n - 1)
  }

  /** How many milliseconds n waits take at least. */
  function Waited(n: nat): nat {
    TO_MIN * (Pow2(n) - 1)
  }

  /** The final deadline of the call is a whole second that `add_timespec` leaves
      unnormalised. */
  predicate Awkward(start: int, to: int) {
    start % NS + to % 1000 * MS == NS
  }

  /** Callers that ask for whole seconds are safe. */
  lemma WholeSecondsAreNotAwkward(start: int, to: int)
    requires to % 1000 == 0
    ensures !Awkward(start, to)
  {}

  /** Such a call: at 5.5 s, with 1.5 s to go. */
  lemma AwkwardCall()
    ensures Awkward(5 * NS + 500 * MS, 1500)
  {}

  /** After n unanswered waits, none of them the final one, it is instant `end`. */
  ghost predicate Waiting(start: int, to: int, n: nat, end: int, onTime: bool) {
    && Waited(n) <= to
    && end >= start + Waited(n) * MS
    && (onTime ==> end == start + Waited(n) * MS)
  }

  /** What the comparison with the final deadline decides. */
  lemma NextDeadline(start: int, to: int, n: nat, now: int, onTime: bool, final: Timespec, next: Timespec)
    requires Waiting(start, to, n, now, onTime) && Added(final) && Added(next)
    requires Total(final) == start + to * MS && (final.nsec == NS ==> to % 1000 != 0)
    requires Total(next) == now + TO_MIN * Pow2(n) * MS
    ensures CmpTimespec(next, final) <= 0 ==> Waiting(start, to, n + 1, Total(next), onTime)
    ensures CmpTimespec(next, final) <= 0 ==> Total(next) <= Total(final)
    ensures CmpTimespec(next, final) > 0 ==> Total(next) >= Total(final)
    ensures CmpTimespec(next, final) > 0 && onTime ==> Waited(n + 1) > to
  {
    CmpIsTheOrderOfInstants(next, final);
    CmpIsTheOrderOfInstants(final, next);
    assert Total(next) - now == (Waited(n + 1) - Waited(n)) * MS;
  }

  /** The final deadline is right, and invalid exactly in the awkward case. */
  ghost predicate FinalOk(final: Timespec, start: int, to: int) {
    && Total(final) == start + to * MS && final.sec > 0 && Added(final)
    && (final.nsec == NS <==> Awkward(start, to))
  }

  /** The last of n waits ended at the final deadline. */
  ghost predicate Over(instant: int, to: int, n: nat, end: int, onTime: bool) {
    n > 0 && Waited(n - 1) <= to && end == instant && (onTime ==> Waited(n) > to)
  }

  /** The deadlines go up to `end` and not past the final one. */
  ghost predicate Deadlines(ds: seq<Timespec>, final: int, end: int) {
    && (forall i :: 0 <= i < |ds| ==> Total(ds[i]) <= final)
    && (forall i :: 0 <= i < |ds| - 1 ==> Total(ds[i]) <= Total(ds[i + 1]))
    && (ds != [] ==> Total(ds[|ds| - 1]) == end)
  }

  /** All deadlines are valid but perhaps the last, and that unless bad says so. */
  ghost predicate AllValid(ds: seq<Timespec>, bad: bool) {
    && (forall i :: 0 <= i < |ds| - 1 ==> Valid(ds[i]))
    && (ds != [] && !bad ==> Valid(ds[|ds| - 1]))
  }

  /** The state at the head of the loop; final.sec is zero once the last wait is set up. */
  ghost predicate Progress(start: int, to: int, ds: seq<Timespec>, end: int, final: Timespec, onTime: bool) {
    && (final.sec != 0 ==> FinalOk(final, start, to) && Waiting(start, to, |ds|, end, onTime))
    && (final.sec == 0 ==> Over(start + to * MS, to, |ds|, end, onTime))
    && Deadlines(ds, start + to * MS, end)
  }

  method FinalDeadline(start: int, to: int) returns (final: Timespec)
    requires start >= NS && to >= 0
    ensures FinalOk(final, start, to)
  {
    final := AddTimespec(Clock(start), to);
    assert CMod(to, 1000) == to % 1000;
  }

  /** Choose the deadline of the next wait. */
  method NextWait(now: Timespec, curr: int, final: Timespec,
                  ghost start: int, ghost to: int, ghost ds: seq<Timespec>, ghost end: int, ghost onTime: bool)
    returns (next: Timespec, final': Timespec)
    requires Progress(start, to, ds, end, final, onTime) && final.sec != 0
    requires curr == TO_MIN * Pow2(|ds|) && Valid(now)
    requires Total(now) >= end && (onTime ==> Total(now) == end)
    ensures Progress(start, to, ds + [next], Total(next), final', onTime)
    ensures final'.sec != 0 ==> final' == final && Valid(next)
    ensures final'.sec == 0 ==> (Valid(next) <==> !Awkward(start, to))
  {
    WholeIntervals(curr, |ds|);
    next := AddTimespec(now, curr);
    final' := final;
    if final.nsec == NS {
      AwkwardIsNotWhole(start, to);
    }
    NextDeadline(start, to, |ds|, Total(now), onTime, final, next);
    if CmpTimespec(next, final) > 0 {
      next := final;
      final' := final.(sec := 0);
    }
    assert Deadlines(ds + [next], start + to * MS, Total(next));
  }

  lemma WholeIntervals(curr: int, n: nat)
    requires curr == TO_MIN * Pow2(n)
    ensures CMod(curr, 1000) == 0 && curr > 0
  {}

  lemma AwkwardIsNotWhole(start: int, to: int)
    requires Awkward(start, to)
    ensures to % 1000 != 0
  {}

  /** No wait so far brought a reply, or failed to end. */
  ghost predicate Unanswered(ds: seq<Timespec>, wait: (nat, Timespec) -> Wait) {
    forall i :: 0 <= i < |ds| ==> IsLeft(wait(i, ds[i])) && !Brings(wait(i, ds[i]))
  }

  lemma AppendWait(ds: seq<Timespec>, next: Timespec, wait: (nat, Timespec) -> Wait, awkward: bool)
    requires AllValid(ds, false) && Unanswered(ds, wait) && (!awkward ==> Valid(next))
    ensures (ds + [next])[..|ds|] == ds && AllValid(ds + [next], awkward)
    ensures Valid(next) ==> AllValid(ds + [next], false)
    ensures IsLeft(wait(|ds|, next)) && !Brings(wait(|ds|, next)) ==> Unanswered(ds + [next], wait)
  {}

  /** A head of the loop at which no wait has brought a reply. */
  ghost predicate Head(start: int, to: int, onTime: bool, wait: (nat, Timespec) -> Wait,
                       ds: seq<Timespec>, end: int, curr: int, final: Timespec) {
    && Progress(start, to, ds, end, final, onTime) && curr == TO_MIN * Pow2(|ds|)
    && AllValid(ds, false) && Unanswered(ds, wait)
    && (final.sec == 0 ==> !Awkward(start, to))
  }

  /** The last of the waits ds had the given outcome. */
  ghost predicate Ended(start: int, to: int, onTime: bool, wait: (nat, Timespec) -> Wait,
                        ds: seq<Timespec>, end: int, outcome: Outcome) {
    && ds != [] && Deadlines(ds, start + to * MS, end) && AllValid(ds, Awkward(start, to))
    && Unanswered(ds[..|ds| - 1], wait) && EndedBy(wait(|ds| - 1, ds[|ds| - 1]), outcome)
    && Waited(|ds| - 1) <= to
    && (outcome != Replied ==>
         && (outcome == Stuck <==> Awkward(start, to))
         && end == start + to * MS && (onTime ==> Waited(|ds|) > to))
  }

  ghost predicate EndedBy(w: Wait, outcome: Outcome) {
    (outcome == Replied <==> Brings(w)) && (outcome == Stuck <==> !IsLeft(w))
  }

  lemma HeadEnds(start: int, to: int, onTime: bool, wait: (nat, Timespec) -> Wait,
                 ds: seq<Timespec>, end: int, curr: int, final: Timespec)
    requires Head(start, to, onTime, wait, ds, end, curr, final) && final.sec == 0
    ensures Ended(start, to, onTime, wait, ds, end, Expired)
  {
    var last := |ds| - 1;
    assert IsLeft(wait(last, ds[last])) && !Brings(wait(last, ds[last]));
    assert forall i :: 0 <= i < last ==> ds[..last][i] == ds[i];
  }

  /** What one more wait leads to. */
  lemma AfterWait(start: int, to: int, onTime: bool, wait: (nat, Timespec) -> Wait, ds: seq<Timespec>,
                  end: int, curr: int, final: Timespec, next: Timespec, final': Timespec, outcome: Outcome)
    requires Head(start, to, onTime, wait, ds, end, curr, final) && final.sec != 0
    requires Progress(start, to, ds + [next], Total(next), final', onTime)
    requires final'.sec != 0 ==> final' == final && Valid(next)
    requires final'.sec == 0 ==> (Valid(next) <==> !Awkward(start, to))
    requires EndedBy(wait(|ds|, next), outcome) && (outcome == Stuck ==> !Valid(next))
    requires outcome == Expired ==> Valid(next)
    ensures outcome == Expired ==> Head(start, to, onTime, wait, ds + [next], Total(next), 2 * curr, final')
    ensures outcome != Expired ==> Ended(start, to, onTime, wait, ds + [next], Total(next), outcome)
  {
    AppendWait(ds, next, wait, Awkward(start, to));
  }

  ghost predicate AllPossible(wait: (nat, Timespec) -> Wait) {
    forall i, d :: Possible(d, wait(i, d))
  }

  /** One turn of the outer loop: choose the deadline, and wait. */
  method OneMoreWait(now: Timespec, curr: int, final: Timespec, wait: (nat, Timespec) -> Wait, n: nat,
                     ghost start: int, ghost to: int, ghost onTime: bool, ghost ds: seq<Timespec>, ghost end: int)
    returns (next: Timespec, final': Timespec, outcome: Outcome)
    requires Head(start, to, onTime, wait, ds, end, curr, final) && final.sec != 0
    requires n == |ds| && AllPossible(wait)
    requires Valid(now) && Total(now) >= end && (onTime ==> Total(now) == end)
    ensures outcome == Expired ==> Head(start, to, onTime, wait, ds + [next], Total(next), 2 * curr, final')
    ensures outcome != Expired ==> Ended(start, to, onTime, wait, ds + [next], Total(next), outcome)
  {
    next, final' := NextWait(now, curr, final, start, to, ds, end, onTime);
    outcome := WaitOnce(next, wait(n, next));
    AfterWait(start, to, onTime, wait, ds, end, curr, final, next, final', outcome);
  }

  /** The wait loop of `call1`, started at instant `start` with `to` milliseconds to go.
      `late(i)` is how long after the i-th deadline (for 0: after the start) the clock is
      read again; wait(i, d) are the surroundings of wait i if its deadline is d. */
  method WaitForReply(start: int, to: int, late: nat -> nat, wait: (nat, Timespec) -> Wait)
    returns (outcome: Outcome, deadlines: seq<Timespec>, end: int, curr: int)
    requires start >= NS && to >= 0 && AllPossible(wait)
    // The waits: at least one, and each deadline is at most the final one.
    ensures |deadlines| >= 1 && Deadlines(deadlines, start + to * MS, end)
    // Only the last brings a reply or does not end, and that decides the outcome.
    ensures var last := |deadlines| - 1;
            Unanswered(deadlines[..last], wait) && EndedBy(wait(last, deadlines[last]), outcome)
    // Every deadline is valid except, in the awkward case, the final one; so a call that
    // gets no reply spins for ever exactly in that case.
    ensures AllValid(deadlines, Awkward(start, to))
    ensures outcome != Replied ==> (outcome == Stuck <==> Awkward(start, to))
    // Their number: all but the last fit into the time allowed.
    ensures Waited(|deadlines| - 1) <= to
    // A call without reply goes on for the time allowed.
    ensures outcome != Replied ==> end == start + to * MS
    // The interval doubles after every wait that was not answered.
    ensures curr == TO_MIN * Pow2(if outcome == Expired then |deadlines| else |deadlines| - 1)
    // On time and without reply, the waits are as few as the number above allows.
    ensures outcome != Replied && (forall i :: late(i) == 0) ==> Waited(|deadlines|) > to
  {
    ghost var onTime := forall i :: late(i) == 0;
    var final := FinalDeadline(start, to);
    deadlines, end, curr := [], start, TO_MIN;
    while final.sec != 0
      invariant Head(start, to, onTime, wait, deadlines, end, curr, final)
      decreases if final.sec == 0 then 0 else to + 2 * TO_MIN - curr
    {
      var now := Clock(end + late(|deadlines|));
      var next, final', outcome' := OneMoreWait(now, curr, final, wait, |deadlines|, start, to, onTime, deadlines, end);
      outcome, final, deadlines, end := outcome', final', deadlines + [next], Total(next);
      if outcome != Expired {
        return;
      }
      curr := 2 * curr;
    }
    HeadEnds(start, to, onTime, wait, deadlines, end, curr, final);
    outcome := Expired;
  }

  /** The number of waits: at most one more than the least k with 1000 * 2^k > to. */
  lemma WaitsAreFew(waits: nat, to: int, k: nat)
    requires waits >= 1 && Waited(waits - 1) <= to && TO_MIN * Pow2(k) > to
    ensures waits <= k + 1
  {
    if waits > k + 1 {
      Pow2Monotone(k + 1, waits - 1);
    }
  }

  lemma {:induction false} Pow2Monotone(a: nat, b: nat)
    requires a <= b
    ensures Pow2(a) <= Pow2(b)
    decreases b
  {
    if a < b {
      Pow2Monotone(a, b - 1);
    }
  }

  /** The doubled interval fits an int exactly while the time allowed is below
      1000 * (2^21 - 1) ms: then it never overflows, and otherwise it does in every
      timeout whose waits start on time. */
  lemma IntervalFits(waits: nat, to: int)
    requires waits >= 1 && Waited(waits - 1) <= to
    ensures to < 2_097_151_000 ==> TO_MIN * Pow2(waits) < 0x8000_0000
    ensures to >= 2_097_151_000 && Waited(waits) > to ==> TO_MIN * Pow2(waits) >= 0x8000_0000
  {
    assert Pow2(7) == 128 && Pow2(14) == 16_384;
    assert Pow2(21) == 2_097_152;
    if waits <= 21 {
      Pow2Monotone(waits, 21);
    } else {
      Pow2Monotone(21, waits - 1);
    }
  }
}
