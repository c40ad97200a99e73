/** The client's completion window (`rpcc::xid_rep_window_`): a list of xids that
    stands for the set of all completed xids.  Its front is what the client
    acknowledges in every request header. */
module XidWindow {

  /** f is the end of the completed prefix: 1..f are completed and f + 1 is not. */
  ghost predicate IsFront(completed: set<nat>, f: nat) {
    && (forall v :: 1 <= v <= f ==> v in completed)
    && f + 1 !in completed
  }

  /** The largest f such that 1..f are all completed. */
  ghost function Front(completed: set<nat>): (f: nat)
    ensures IsFront(completed, f)
  {
    FrontFrom(completed, 0)
  }

  ghost function Above(completed: set<nat>, k: nat): set<nat> {
    set x | x in completed && k < x
  }

  ghost function FrontFrom(completed: set<nat>, k: nat): (f: nat)
    requires forall v :: 1 <= v <= k ==> v in completed
    ensures IsFront(completed, f) && k <= f
    decreases Above(completed, k)
  {
    if k + 1 in completed then
      assert k + 1 in Above(completed, k) && k + 1 !in Above(completed, k + 1);
      FrontFrom(completed, k + 1)
    else k
  }

  /** Acknowledgements never go back. */
  lemma FrontIsMonotone(c: set<nat>, d: set<nat>, f: nat, g: nat)
    requires c <= d && IsFront(c, f) && IsFront(d, g)
    ensures f <= g
  {
    assert g + 1 !in c;
  }

  lemma FrontIsUnique(completed: set<nat>, f: nat)
    requires IsFront(completed, f)
    ensures Front(completed) == f
  {
    FrontIsMonotone(completed, completed, f, Front(completed));
    FrontIsMonotone(completed, completed, Front(completed), f);
  }

  /** An xid that has not completed lies strictly above the front. */
  lemma UncompletedAboveFront(completed: set<nat>, x: nat)
    requires 1 <= x && x !in completed
    ensures Front(completed) < x
  {}

  ghost predicate Nondecreasing(l: seq<nat>) {
    forall i, j :: 0 <= i <= j < |l| ==> l[i] <= l[j]
  }

  /** The list represents the set: it is non-empty and nondecreasing, its front is
      the end of the completed prefix, and above the front it holds exactly the
      completed xids.  A value may be repeated. */
  ghost predicate Represents(l: seq<nat>, completed: set<nat>) {
    && l != []
    && Nondecreasing(l)
    && IsFront(completed, l[0])
    && (forall v :: l[0] < v ==> (v in l <==> v in completed))
  }

  /** Between insertion and compression only the front need not be maximal. */
  ghost predicate Uncompressed(l: seq<nat>, completed: set<nat>) {
    && l != []
    && Nondecreasing(l)
    && (forall v :: 1 <= v <= l[0] ==> v in completed)
    && (forall v :: l[0] < v ==> (v in l <==> v in completed))
  }

  lemma InsertKeepsUncompressed(l: seq<nat>, completed: set<nat>, i: nat, xid: nat)
    requires Uncompressed(l, completed)
    requires 1 <= i <= |l|
    requires l[0] < xid
    requires forall k :: 0 <= k < i ==> l[k] <= xid
    requires forall k :: i <= k < |l| ==> xid < l[k]
    ensures Uncompressed(l[..i] + [xid] + l[i..], completed + {xid})
  {
    var l' := l[..i] + [xid] + l[i..];
    forall v | l'[0] < v
      ensures v in l' <==> v in completed + {xid}
    {
      assert l == l[..i] + l[i..];
    }
  }

  /** Popping the front is sound as soon as its successor is in the list. */
  lemma PopKeepsUncompressed(l: seq<nat>, completed: set<nat>, p: nat)
    requires Uncompressed(l, completed)
    requires 1 <= p < |l| && l[p] == l[0] + 1
    ensures Uncompressed(l[1..], completed)
  {
    var l' := l[1..];
    assert l[0] + 1 in l;
    assert l[0] <= l'[0] <= l[0] + 1;
    forall v | 1 <= v <= l'[0]
      ensures v in completed
    {}
    forall v | l'[0] < v
      ensures v in l' <==> v in completed
    {
      assert l == [l[0]] + l';
    }
  }
}
