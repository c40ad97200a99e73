/** The server's reply window for one client: a map from xid to the state of that
    request.  These functions are the whole decision made under `reply_window_m_`. */
module ReplySpec {

  datatype Slot<R> = InProgress | Stored(reply: R)

  type Entries<R> = map<nat, Slot<R>>

  /** `rpcs::rpcstate_t`. */
  datatype Verdict<R> = New | Busy | Done(reply: R) | Forgotten

  /** Entries below the client's acknowledgement are dropped. */
  function Prune<R>(m: Entries<R>, rep: nat): Entries<R> {
    map x | x in m && rep <= x :: m[x]
  }

  function Judge<R>(m: Entries<R>, xid: nat, rep: nat): Verdict<R> {
    if xid <= rep then Forgotten
    else if xid !in m then New
    else match m[xid] {
      case InProgress => Busy
      case Stored(r) => Done(r)
    }
  }

  function Admit<R>(m: Entries<R>, xid: nat, rep: nat): Entries<R> {
    if xid <= rep then m
    else if xid in m then Prune(m, rep)
    else Prune(m, rep)[xid := InProgress]
  }

  function Record<R>(m: Entries<R>, xid: nat, reply: R): Entries<R> {
    if xid in m then m[xid := Stored(reply)] else m
  }

  /** The entries of one client; a client never seen has none. */
  function For<R>(w: map<nat, Entries<R>>, clt: nat): Entries<R> {
    if clt in w then w[clt] else map[]
  }
}

/** `rpcs::reply_window_` as the source keeps it: per client, a list of replies. */
module ReplyWindow {
  import opened Wrappers
  import opened ReplySpec

  /** `rpcs::reply_t`; None is the null buffer. */
  datatype Reply<R> = Reply(xid: nat, present: bool, buf: Option<R>)

  ghost predicate WellFormed<R>(l: seq<Reply<R>>) {
    && (forall i, j :: 0 <= i < j < |l| ==> l[i].xid != l[j].xid)
    && (forall i :: 0 <= i < |l| ==> (l[i].present <==> l[i].buf.Some?))
  }

  ghost function SlotOf<R>(r: Reply<R>): Slot<R> {
    if r.buf.Some? then Stored(r.buf.value) else InProgress
  }

  ghost function View<R>(l: seq<Reply<R>>): (m: Entries<R>)
    requires WellFormed(l)
    ensures forall i :: 0 <= i < |l| ==> l[i].xid in m && m[l[i].xid] == SlotOf(l[i])
    ensures forall x :: x in m ==> exists i :: 0 <= i < |l| && l[i].xid == x
  {
    map i | 0 <= i < |l| :: l[i].xid := SlotOf(l[i])
  }

  /** Two views are equal when the lists agree entry by entry. */
  lemma SameView<R>(l: seq<Reply<R>>, m: Entries<R>)
    requires WellFormed(l)
    requires forall i :: 0 <= i < |l| ==> l[i].xid in m && m[l[i].xid] == SlotOf(l[i])
    requires forall x :: x in m ==> exists i :: 0 <= i < |l| && l[i].xid == x
    ensures View(l) == m
  {
    var v := View(l);
    forall x | x in m
      ensures x in v && v[x] == m[x]
    {
      var i :| 0 <= i < |l| && l[i].xid == x;
    }
    assert v.Keys == m.Keys;
  }

  lemma AppendToView<R>(l: seq<Reply<R>>, r: Reply<R>)
    requires WellFormed(l) && r.xid !in View(l)
    requires r.present <==> r.buf.Some?
    ensures WellFormed(l + [r])
    ensures View(l + [r]) == View(l)[r.xid := SlotOf(r)]
  {
    AppendKeepsWellFormed(l, r);
    AppendAddsXid(l, r);
    forall i | 0 <= i < |l + [r]|
      ensures var m := View(l)[r.xid := SlotOf(r)]; (l + [r])[i].xid in m && m[(l + [r])[i].xid] == SlotOf((l + [r])[i])
    {
      assert i < |l| ==> (l + [r])[i] == l[i];
    }
    SameView(l + [r], View(l)[r.xid := SlotOf(r)]);
  }

  lemma AppendKeepsWellFormed<R>(l: seq<Reply<R>>, r: Reply<R>)
    requires WellFormed(l) && r.xid !in View(l)
    requires r.present <==> r.buf.Some?
    ensures WellFormed(l + [r])
  {
    assert forall i :: 0 <= i < |l| ==> (l + [r])[i] == l[i];
  }

  lemma AppendAddsXid<R>(l: seq<Reply<R>>, r: Reply<R>)
    requires WellFormed(l)
    ensures exists i :: 0 <= i < |l + [r]| && (l + [r])[i].xid == r.xid
    ensures forall x :: x in View(l) ==> exists i :: 0 <= i < |l + [r]| && (l + [r])[i].xid == x
  {
    assert (l + [r])[|l|].xid == r.xid;
    forall x | x in View(l)
      ensures exists i :: 0 <= i < |l + [r]| && (l + [r])[i].xid == x
    {
      var i :| 0 <= i < |l| && l[i].xid == x;
      assert (l + [r])[i].xid == x;
    }
  }

  lemma StoreInView<R>(l: seq<Reply<R>>, k: nat, reply: R)
    requires WellFormed(l) && k < |l|
    ensures WellFormed(l[k := Reply(l[k].xid, true, Some(reply))])
    ensures View(l[k := Reply(l[k].xid, true, Some(reply))]) == View(l)[l[k].xid := Stored(reply)]
  {
    var l' := l[k := Reply(l[k].xid, true, Some(reply))];
    var m := View(l)[l[k].xid := Stored(reply)];
    forall x | x in m
      ensures exists i :: 0 <= i < |l'| && l'[i].xid == x
    {
      var i :| 0 <= i < |l| && l[i].xid == x;
      assert l'[i].xid == x;
    }
    SameView(l', m);
  }

  function Without<T>(l: seq<T>, k: nat): (l': seq<T>)
    requires k < |l|
    ensures |l'| == |l| - 1
    ensures forall i :: 0 <= i < k ==> l'[i] == l[i]
    ensures forall i :: k <= i < |l'| ==> l'[i] == l[i + 1]
  {
    l[..k] + l[k + 1..]
  }

  lemma EraseKeepsWellFormed<R>(l: seq<Reply<R>>, k: nat)
    requires WellFormed(l) && k < |l|
    ensures WellFormed(Without(l, k))
    ensures forall i :: 0 <= i < |l| - 1 ==> Without(l, k)[i].xid != l[k].xid
  {}

  lemma EraseFromView<R>(l: seq<Reply<R>>, k: nat)
    requires WellFormed(l) && k < |l|
    ensures WellFormed(Without(l, k))
    ensures View(Without(l, k)) == View(l) - {l[k].xid}
  {
    EraseKeepsWellFormed(l, k);
    EraseKeepsOthers(l, k);
    SameView(Without(l, k), View(l) - {l[k].xid});
  }

  lemma EraseKeepsOthers<R>(l: seq<Reply<R>>, k: nat)
    requires WellFormed(l) && k < |l|
    ensures var l' := Without(l, k); var m := View(l) - {l[k].xid};
            && (forall i :: 0 <= i < |l'| ==> l'[i].xid in m && m[l'[i].xid] == SlotOf(l'[i]))
            && forall x :: x in m ==> exists i :: 0 <= i < |l'| && l'[i].xid == x
  {
    var l', m := Without(l, k), View(l) - {l[k].xid};
    forall i | 0 <= i < |l'|
      ensures l'[i].xid in m && m[l'[i].xid] == SlotOf(l'[i])
    {
      assert l'[i] == l[if i < k then i else i + 1];
    }
    forall x | x in m
      ensures exists i :: 0 <= i < |l'| && l'[i].xid == x
    {
      OtherXidStays(l, k, x);
    }
  }

  lemma OtherXidStays<R>(l: seq<Reply<R>>, k: nat, x: nat)
    requires WellFormed(l) && k < |l| && x in View(l) && x != l[k].xid
    ensures exists i :: 0 <= i < |Without(l, k)| && Without(l, k)[i].xid == x
  {
    var i :| 0 <= i < |l| && l[i].xid == x;
    assert Without(l, k)[if i < k then i else i - 1] == l[i];
  }

  /** Erasing an acknowledged entry does not change the pruned view. */
  lemma PruneAfterErase<R>(m: Entries<R>, x: nat, rep: nat)
    requires x < rep
    ensures Prune(m - {x}, rep) == Prune(m, rep)
  {}

  lemma PruneNothing<R>(l: seq<Reply<R>>, rep: nat)
    requires WellFormed(l) && forall k :: 0 <= k < |l| ==> rep <= l[k].xid
    ensures Prune(View(l), rep) == View(l)
  {}

  class ReplyWindow<R> {
    var window: map<nat, seq<Reply<R>>>

    ghost predicate Valid()
      reads this
    {
      forall clt :: clt in window ==> WellFormed(window[clt])
    }

    ghost function Entries(clt: nat): Entries<R>
      requires Valid()
      reads this
    {
      if clt in window then View(window[clt]) else map[]
    }

    constructor ()
      ensures Valid() && window == map[]
    {
      window := map[];
    }

    /** `rpcs::checkduplicate_and_update`. */
    method CheckDuplicateAndUpdate(clt: nat, xid: nat, rep: nat) returns (v: Verdict<R>)
      requires Valid()
      modifies this
      ensures Valid()
      ensures v == Judge(old(Entries(clt)), xid, rep)
      ensures Entries(clt) == Admit(old(Entries(clt)), xid, rep)
      ensures forall c :: c != clt ==> Entries(c) == old(Entries(c))
    {
      if xid <= rep {
        return Forgotten;
      }
      if clt !in window {
        SameView<R>([], map[]);
        window := window[clt := []];
      }
      assert forall c :: c != clt ==> Entries(c) == old(Entries(c));
      EraseAcknowledged(clt, rep);
      assert forall c :: c != clt ==> Entries(c) == old(Entries(c));
      var it := Find(clt, xid);
      if it < |window[clt]| {
        var r := window[clt][it];
        v := if r.present then Done(r.buf.value) else Busy;
      } else {
        AppendToView(window[clt], Reply(xid, false, None));
        window := window[clt := window[clt] + [Reply(xid, false, None)]];
        v := New;
        assert forall c :: c != clt ==> Entries(c) == old(Entries(c));
      }
    }

    /** The erasing loop: the list is not sorted, so every entry is visited. */
    method EraseAcknowledged(clt: nat, rep: nat)
      requires Valid() && clt in window
      modifies this
      ensures Valid() && clt in window
      ensures Entries(clt) == Prune(old(Entries(clt)), rep)
      ensures forall c :: c != clt ==> Entries(c) == old(Entries(c))
    {
      var l, it := window[clt], 0;
      while it < |l|
        invariant WellFormed(l) && 0 <= it <= |l|
        invariant Prune(View(l), rep) == Prune(View(window[clt]), rep)
        invariant forall k :: 0 <= k < it ==> rep <= l[k].xid
        decreases |l| - it
        modifies {}
      {
        if l[it].xid < rep {
          EraseFromView(l, it);
          PruneAfterErase(View(l), l[it].xid, rep);
          l := Without(l, it);
        } else {
          it := it + 1;
        }
      }
      PruneNothing(l, rep);
      window := window[clt := l];
    }

    /** `std::find_if` on the client's list. */
    method Find(clt: nat, xid: nat) returns (it: nat)
      requires Valid() && clt in window
      ensures it <= |window[clt]|
      ensures it < |window[clt]| <==> xid in Entries(clt)
      ensures it < |window[clt]| ==> window[clt][it].xid == xid
    {
      it := 0;
      while it < |window[clt]| && window[clt][it].xid != xid
        invariant it <= |window[clt]|
        invariant forall k :: 0 <= k < it ==> window[clt][k].xid != xid
      {
        it := it + 1;
      }
    }

    /** `rpcs::add_reply`: a reply whose entry was pruned meanwhile is not recorded. */
    method AddReply(clt: nat, xid: nat, reply: R)
      requires Valid() && clt in window
      modifies this
      ensures Valid()
      ensures Entries(clt) == Record(old(Entries(clt)), xid, reply)
      ensures forall c :: c != clt ==> Entries(c) == old(Entries(c))
    {
      var it := Find(clt, xid);
      if it < |window[clt]| {
        StoreInView(window[clt], it, reply);
        window := window[clt := window[clt][it := Reply(xid, true, Some(reply))]];
      }
    }
  }
}
