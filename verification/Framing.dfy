/** Bytes and 32-bit integers in network order. */
module Bytes {

  type Byte = x: nat | x < 256

  const TWO32 := 0x1_0000_0000

  function Be32(n: nat): (b: seq<Byte>)
    requires n < TWO32
    ensures |b| == 4
  {
    var n1 := n / 256;
    var n2 := n1 / 256;
    [n2 / 256, n2 % 256, n1 % 256, n % 256]
  }

  function FromBe32(b: seq<Byte>): (n: nat)
    requires |b| == 4
    ensures n < TWO32
  {
    var b0: int, b1: int, b2: int, b3: int := b[0], b[1], b[2], b[3];
    ((b0 * 256 + b1) * 256 + b2) * 256 + b3
  }

  lemma Be32RoundTrip(n: nat)
    requires n < TWO32
    ensures FromBe32(Be32(n)) == n
  {}

  lemma Be32Canonical(b: seq<Byte>)
    requires |b| == 4
    ensures Be32(FromBe32(b)) == b
  {
    var b0: int, b1: int, b2: int := b[0], b[1], b[2];
    LastDigit((b0 * 256 + b1) * 256 + b2, b[3]);
    LastDigit(b0 * 256 + b1, b[2]);
    LastDigit(b0, b[1]);
    assert b == [b[0], b[1], b[2], b[3]];
  }

  lemma LastDigit(q: nat, d: Byte)
    ensures var x: int := d; (q * 256 + x) / 256 == q && (q * 256 + x) % 256 == x
  {}
}

/** Frames: a PDU's first four bytes are its whole length in network order. */
module Frames {
  import opened Bytes

  /** Largest PDU that the receiver accepts. */
  const MAX_PDU := 10 * 1024 * 1024

  /** Every PDU starts with room for the RPC header. */
  const RPC_HEADER_SZ := 24

  type Frame = seq<Byte>

  predicate Sendable(b: seq<Byte>) {
    RPC_HEADER_SZ <= |b| < 0x8000_0000
  }

  /** What is written for the buffer b. */
  function Framed(b: seq<Byte>): (f: Frame)
    requires Sendable(b)
    ensures |f| == |b|
  {
    Be32(|b|) + b[4..]
  }

  ghost predicate WellFramed(f: Frame) {
    Sendable(f) && FromBe32(f[..4]) == |f|
  }

  lemma FramedIsWellFramed(b: seq<Byte>)
    requires Sendable(b)
    ensures WellFramed(Framed(b)) && Framed(Framed(b)) == Framed(b)
    ensures Framed(b)[4..] == b[4..]
  {
    Be32RoundTrip(|b|);
    assert Framed(b)[..4] == Be32(|b|);
  }

  ghost function Concat(fs: seq<Frame>): seq<Byte> {
    if fs == [] then [] else Concat(fs[..|fs| - 1]) + fs[|fs| - 1]
  }

  /** Frame k occupies its own stretch of the concatenation. */
  lemma {:induction false} FrameAt(fs: seq<Frame>, k: nat)
    requires k < |fs|
    ensures |Concat(fs[..k])| + |fs[k]| <= |Concat(fs)|
    ensures Concat(fs)[|Concat(fs[..k])|..|Concat(fs[..k])| + |fs[k]|] == fs[k]
    ensures Concat(fs[..k + 1]) == Concat(fs[..k]) + fs[k]
    ensures Concat(fs[..k]) <= Concat(fs)
  {
    var n := |fs| - 1;
    assert fs[..k + 1][..k] == fs[..k];
    if k < n {
      FrameAt(fs[..n], k);
      assert fs[..n][..k] == fs[..k];
    } else {
      assert fs[..k + 1] == fs;
    }
  }

  /** Result of a non-blocking write: so many bytes, try again, or an error. */
  datatype Out = Wrote(n: nat) | WouldBlock | Broken

  /** Result of a non-blocking read. */
  datatype In = Got(b: seq<Byte>) | Again | Gone

  /** The write slot (`wpdu_`): its frame and how much of it is on the wire; -1 after
      an error. */
  datatype Slot = Slot(t: nat, frame: Frame, solong: int)

  predicate CanWrite(slot: Slot, w: Out) {
    && 0 <= slot.solong <= |slot.frame|
    && (w.Wrote? ==> slot.solong + w.n <= |slot.frame|)
  }

  function AfterWrite(slot: Slot, w: Out): Slot
    requires CanWrite(slot, w)
  {
    if slot.solong == |slot.frame| then slot
    else match w
      case Wrote(n) => slot.(solong := slot.solong + n)
      case WouldBlock => slot
      case Broken => slot.(solong := -1)
  }

  /** The bytes that this write puts on the wire. */
  function Output(slot: Slot, w: Out): seq<Byte>
    requires CanWrite(slot, w)
  {
    if slot.solong < |slot.frame| && w.Wrote? then slot.frame[slot.solong..slot.solong + w.n] else []
  }

  /** The read buffer (`rpdu_`): nothing, or a PDU of known size read so far. */
  datatype Inbox = Empty | Partial(sz: nat, buf: seq<Byte>)

  predicate Complete(inbox: Inbox) {
    inbox.Partial? && |inbox.buf| == inbox.sz
  }

  /** The size word: a short read, the end of the stream or too big a PDU fails. */
  predicate HeaderOk(h: In) {
    h.Got? && |h.b| == 4 && FromBe32(h.b) <= MAX_PDU
  }

  function AfterHeader(inbox: Inbox, h: In): Inbox
    requires inbox.Empty? ==> HeaderOk(h)
  {
    if inbox.Empty? then Partial(FromBe32(h.b), h.b) else inbox
  }

  function AfterBody(inbox: Inbox, b: In): Inbox
    requires inbox.Partial? && !b.Gone?
  {
    if b.Got? then inbox.(buf := inbox.buf + b.b) else inbox
  }
}

/** `connection`: the two buffers and the code that fills and drains them. */
module Connection {
  import opened Wrappers
  import opened Bytes
  import opened Frames

  class Connection {
    var dead: bool
    var wbuf: Option<seq<Byte>>
    var wsolong: int
    var rbuf: Option<seq<Byte>>
    var rsz: nat

    ghost predicate Valid()
      reads this
    {
      && (wbuf.Some? ==> Sendable(wbuf.value) && -1 <= wsolong <= |wbuf.value|)
      && (wbuf.Some? && wsolong > 0 ==> wbuf.value == Framed(wbuf.value))
      && (rbuf.Some? ==> |rbuf.value| <= rsz)
    }

    ghost function SlotOf(t: nat): Slot
      requires Valid() && wbuf.Some?
      reads this
    {
      Slot(t, Framed(wbuf.value), wsolong)
    }

    ghost function InboxOf(): Inbox
      reads this
    {
      if rbuf.Some? then Partial(rsz, rbuf.value) else Empty
    }

    constructor ()
      ensures Valid() && !dead && wbuf == None && rbuf == None
    {
      dead, wbuf, wsolong, rbuf, rsz := false, None, 0, None, 0;
    }

    /** `connection::writepdu`, given what write() answers; `out` goes to the wire. */
    method WritePdu(w: Out, ghost t: nat) returns (ok: bool, out: seq<Byte>)
      requires Valid() && wbuf.Some? && CanWrite(SlotOf(t), w)
      modifies this`wbuf, this`wsolong
      ensures Valid() && wbuf.Some?
      ensures SlotOf(t) == AfterWrite(old(SlotOf(t)), w)
      ensures out == Output(old(SlotOf(t)), w)
      ensures !ok <==> SlotOf(t).solong == -1
    {
      var b := wbuf.value;
      if wsolong == |b| {
        return true, [];
      }
      FramedIsWellFramed(b);
      if wsolong == 0 {
        b := Be32(|b|) + b[4..];
        wbuf := Some(b);
      }
      match w {
        case WouldBlock => return true, [];
        case Broken =>
          wsolong := -1;
          return false, [];
        case Wrote(n) =>
          out := b[wsolong..wsolong + n];
          wsolong := wsolong + n;
          ok := true;
      }
    }

    /** `connection::readpdu`, given what its two reads answer.  The size word counts
        itself, and as an int is not negative. */
    method ReadPdu(h: In, b: In) returns (ok: bool)
      requires Valid()
      requires rbuf.None? && h.Got? && |h.b| == 4 ==> 4 <= FromBe32(h.b) < 0x8000_0000
      requires (rbuf.None? ==> HeaderOk(h)) && b.Got? ==>
                 |AfterHeader(InboxOf(), h).buf| + |b.b| <= AfterHeader(InboxOf(), h).sz
      modifies this`rbuf, this`rsz
      ensures ok <==> (old(InboxOf()).Empty? ==> HeaderOk(h)) && !b.Gone?
      ensures ok ==> Valid() && InboxOf() == AfterBody(AfterHeader(old(InboxOf()), h), b)
      ensures !ok ==> Valid() && InboxOf() == Empty
    {
      if rbuf.None? {
        if !h.Got? || |h.b| != 4 {
          return false;
        }
        var sz := FromBe32(h.b);
        if sz > MAX_PDU {
          return false;
        }
        rsz := sz;
        rbuf := Some(h.b);
      }
      match b {
        case Again => ok := true;
        case Gone =>
          rbuf, rsz := None, 0;
          ok := false;
        case Got(x) =>
          rbuf := Some(rbuf.value + x);
          ok := true;
      }
    }

    /** The end of `connection::read_cb`: hand a complete PDU over; when the manager
        refuses it the PDU stays where it is. */
    method Deliver(accept: bool) returns (pdu: Option<seq<Byte>>)
      requires Valid()
      modifies this`rbuf, this`rsz
      ensures Valid()
      ensures pdu == if accept && Complete(old(InboxOf())) then Some(old(InboxOf()).buf) else None
      ensures InboxOf() == if pdu.Some? then Empty else old(InboxOf())
    {
      pdu := None;
      if rbuf.Some? && |rbuf.value| == rsz && accept {
        pdu := rbuf;
        rbuf, rsz := None, 0;
      }
    }
  }
}

/** One direction of a connection: several senders, the byte stream, one receiver. */
module Framing {
  import opened Wrappers
  import opened Bytes
  import opened Frames

  /** `frames`: every frame that ever got the write slot, in order (history); `wire`:
      all bytes written so far; `taken`: how many of them the receiver has read. */
  datatype State = State(senderDead: bool, slot: Option<Slot>, frames: seq<Frame>,
                         wire: seq<Byte>, taken: nat,
                         receiverDead: bool, inbox: Inbox, delivered: seq<seq<Byte>>)

  datatype Action =
    | SendStart(t: nat, b: seq<Byte>, w: Out)
    | WriteReady(w: Out)
    | SendEnd(t: nat)
    | CloseSender
    | ReadReady(head: In, body: In)
    | Offer(accept: bool)
    | CloseReceiver

  const Init := State(false, None, [], [], 0, false, Empty, [])

  /** A read returns the next bytes of the stream. */
  ghost predicate FromWire(s: State, at: nat, i: In) {
    i.Got? ==> at + |i.b| <= |s.wire| && s.wire[at..at + |i.b|] == i.b && i.b != []
  }

  ghost predicate ReadOk(s: State, h: In, b: In) {
    && !s.receiverDead && !Complete(s.inbox)
    && (s.inbox.Empty? ==> FromWire(s, s.taken, h) && (h.Got? ==> |h.b| <= 4))
    && ((s.inbox.Empty? ==> HeaderOk(h)) ==>
         var at := if s.inbox.Empty? then s.taken + 4 else s.taken;
         var inbox := AfterHeader(s.inbox, h);
         FromWire(s, at, b) && (b.Got? ==> |inbox.buf| + |b.b| <= inbox.sz))
  }

  ghost predicate Enabled(s: State, a: Action) {
    match a
    case SendStart(t, b, w) =>
      !s.senderDead && s.slot == None && Sendable(b) && CanWrite(Slot(t, Framed(b), 0), w)
    case WriteReady(w) => !s.senderDead && s.slot.Some? && CanWrite(s.slot.value, w)
    case SendEnd(t) =>
      && s.slot.Some? && s.slot.value.t == t
      && (s.senderDead || s.slot.value.solong == |s.slot.value.frame|)
    case CloseSender => true
    case ReadReady(h, b) => ReadOk(s, h, b)
    case Offer(accept) => !s.receiverDead && Complete(s.inbox)
    case CloseReceiver => true
  }

  ghost function Write(s: State, slot: Slot, w: Out): State
    requires CanWrite(slot, w)
  {
    var slot' := AfterWrite(slot, w);
    s.(slot := Some(slot'), wire := s.wire + Output(slot, w), senderDead := slot'.solong == -1)
  }

  ghost function Read(s: State, h: In, b: In): State
    requires ReadOk(s, h, b)
  {
    if s.inbox.Empty? && !HeaderOk(h) then s.(receiverDead := true, inbox := Empty)
    else if b.Gone? then s.(receiverDead := true, inbox := Empty)
    else
      s.(inbox := AfterBody(AfterHeader(s.inbox, h), b),
         taken := s.taken + (if s.inbox.Empty? then 4 else 0) + (if b.Got? then |b.b| else 0))
  }

  ghost function Do(s: State, a: Action): State
    requires Enabled(s, a)
  {
    match a
    case SendStart(t, b, w) =>
      Write(s.(frames := s.frames + [Framed(b)]), Slot(t, Framed(b), 0), w)
    case WriteReady(w) => Write(s, s.slot.value, w)
    case SendEnd(t) => s.(slot := None)
    case CloseSender => s.(senderDead := true)
    case ReadReady(h, b) => Read(s, h, b)
    case Offer(accept) =>
      if accept then s.(delivered := s.delivered + [s.inbox.buf], inbox := Empty) else s
    case CloseReceiver => s.(receiverDead := true)
  }

  ghost predicate Legal(acts: seq<Action>)
    decreases |acts|, 0
  {
    acts == [] ||
    (Legal(acts[..|acts| - 1]) && Enabled(After(acts[..|acts| - 1]), acts[|acts| - 1]))
  }

  ghost function After(acts: seq<Action>): State
    requires Legal(acts)
    decreases |acts|, 1
  {
    if acts == [] then Init else Do(After(acts[..|acts| - 1]), acts[|acts| - 1])
  }

  /** How much of the last frame is still to be written while the sender lives. */
  ghost predicate WireOk(s: State) {
    && s.wire <= Concat(s.frames)
    && (s.frames != [] ==> |Concat(s.frames[..|s.frames| - 1])| <= |s.wire|)
    && (s.slot.None? && !s.senderDead ==> s.wire == Concat(s.frames))
    && (s.slot.Some? ==>
         && s.frames != [] && s.frames[|s.frames| - 1] == s.slot.value.frame
         && -1 <= s.slot.value.solong <= |s.slot.value.frame|
         && (s.slot.value.solong == -1 ==> s.senderDead)
         && (s.slot.value.solong >= 0 ==>
              s.wire == Concat(s.frames[..|s.frames| - 1]) + s.slot.value.frame[..s.slot.value.solong]))
  }

  ghost predicate FramesOk(s: State) {
    forall i :: 0 <= i < |s.frames| ==> WellFramed(s.frames[i])
  }

  /** The receiver is exactly at the end of the k frames it delivered, or inside the
      next one with its first bytes in the buffer. */
  ghost predicate ReceiverOk(s: State) {
    var k := |s.delivered|;
    && s.delivered <= s.frames
    && (s.inbox.Empty? && !s.receiverDead ==> s.taken == |Concat(s.frames[..k])|)
    && (s.inbox.Partial? ==>
         && k < |s.frames|
         && s.inbox.sz == |s.frames[k]| && s.inbox.buf <= s.frames[k] && |s.inbox.buf| >= 4
         && s.taken == |Concat(s.frames[..k])| + |s.inbox.buf|)
    && s.taken <= |s.wire|
  }

  ghost predicate Inv(s: State) {
    WireOk(s) && FramesOk(s) && ReceiverOk(s)
  }

  lemma WriteKeepsWire(s: State, slot: Slot, w: Out)
    requires CanWrite(slot, w) && s.frames != [] && s.frames[|s.frames| - 1] == slot.frame
    requires s.wire == Concat(s.frames[..|s.frames| - 1]) + slot.frame[..slot.solong]
    ensures WireOk(Write(s, slot, w)) && s.wire <= Write(s, slot, w).wire
  {
    var s' := Write(s, slot, w);
    var slot' := s'.slot.value;
    var before := Concat(s.frames[..|s.frames| - 1]);
    WriteAdvances(before, slot, w);
    if slot'.solong >= 0 {
      PrefixOfFrame(before, slot.frame, slot'.solong);
    } else {
      PrefixOfFrame(before, slot.frame, slot.solong);
    }
  }

  /** What one write adds to the wire. */
  lemma WriteAdvances(before: seq<Byte>, slot: Slot, w: Out)
    requires CanWrite(slot, w)
    ensures var n := AfterWrite(slot, w).solong;
            before + slot.frame[..slot.solong] + Output(slot, w)
              == before + slot.frame[..if n >= 0 then n else slot.solong]
  {
    if slot.solong < |slot.frame| && w.Wrote? {
      assert slot.frame[..slot.solong] + slot.frame[slot.solong..slot.solong + w.n] == slot.frame[..slot.solong + w.n];
    }
  }

  lemma PrefixOfFrame(before: seq<Byte>, f: Frame, n: nat)
    requires n <= |f|
    ensures before + f[..n] <= before + f
  {
    assert f == f[..n] + f[n..];
  }

  /** More frames and more bytes do not disturb the receiver. */
  lemma SenderKeepsReceiver(s: State, s': State)
    requires ReceiverOk(s)
    requires s.frames <= s'.frames && s.wire <= s'.wire
    requires s' == s.(senderDead := s'.senderDead, slot := s'.slot, frames := s'.frames, wire := s'.wire)
    ensures ReceiverOk(s')
  {
    var k := |s.delivered|;
    assert s'.frames[..k] == s.frames[..k];
  }

  lemma SliceOfPrefix<T>(w: seq<T>, all: seq<T>, at: nat, f: seq<T>, done: nat, n: nat)
    requires w <= all && at + |f| <= |all| && all[at..at + |f|] == f
    requires done + n <= |f| && at + done + n <= |w|
    ensures w[at + done..at + done + n] == f[done..done + n]
  {
    var a, b := w[at + done..at + done + n], f[done..done + n];
    forall i | 0 <= i < n
      ensures a[i] == b[i]
    {
      assert a[i] == w[at + done + i] == all[at + (done + i)];
      assert b[i] == f[done + i] == all[at..at + |f|][done + i];
    }
  }

  /** The unread bytes start with what is left of frame k. */
  lemma NextBytes(s: State, k: nat, done: nat, n: nat)
    requires WireOk(s) && k <= |s.frames| && s.taken == |Concat(s.frames[..k])| + done
    requires s.taken + n <= |s.wire| && n > 0
    requires k < |s.frames| ==> done + n <= |s.frames[k]|
    requires k == |s.frames| ==> done == 0
    ensures k < |s.frames|
    ensures s.wire[s.taken..s.taken + n] == s.frames[k][done..done + n]
  {
    assert |s.wire| <= |Concat(s.frames)|;
    assert s.frames[..|s.frames|] == s.frames;
    assert k < |s.frames|;
    FrameAt(s.frames, k);
    SliceOfPrefix(s.wire, Concat(s.frames), |Concat(s.frames[..k])|, s.frames[k], done, n);
  }

  /** The state between the two reads of readpdu. */
  ghost function HeaderRead(s: State, h: In): State
    requires s.inbox.Empty? ==> HeaderOk(h)
  {
    if s.inbox.Empty? then s.(inbox := AfterHeader(s.inbox, h), taken := s.taken + 4) else s
  }

  lemma HeaderKeeps(s: State, h: In)
    requires Inv(s) && !s.receiverDead && (s.inbox.Empty? ==> HeaderOk(h) && FromWire(s, s.taken, h))
    ensures ReceiverOk(HeaderRead(s, h))
  {
    if s.inbox.Empty? {
      var k := |s.delivered|;
      NextBytes(s, k, 0, if k < |s.frames| then 4 else 1);
      assert s.frames[k][0..4] == s.frames[k][..4] == h.b;
    }
  }

  lemma BodyKeeps(s: State, b: In)
    requires WireOk(s) && ReceiverOk(s) && !s.receiverDead && s.inbox.Partial? && b.Got?
    requires FromWire(s, s.taken, b) && |s.inbox.buf| + |b.b| <= s.inbox.sz
    ensures ReceiverOk(BodyRead(s, b))
  {
    var k, d := |s.delivered|, |s.inbox.buf|;
    NextBytes(s, k, d, |b.b|);
    var f := s.frames[k];
    assert s.inbox.buf + b.b == f[..d] + f[d..d + |b.b|] == f[..d + |b.b|];
  }

  ghost function BodyRead(s: State, b: In): State
    requires s.inbox.Partial? && !b.Gone?
  {
    s.(inbox := AfterBody(s.inbox, b), taken := s.taken + if b.Got? then |b.b| else 0)
  }

  lemma ReadInTwo(s: State, h: In, b: In)
    requires ReadOk(s, h, b) && (s.inbox.Empty? ==> HeaderOk(h)) && !b.Gone?
    ensures Read(s, h, b) == BodyRead(HeaderRead(s, h), b)
  {}

  lemma ReadKeepsReceiver(s: State, h: In, b: In)
    requires Inv(s) && ReadOk(s, h, b)
    requires (s.inbox.Empty? ==> HeaderOk(h)) && !b.Gone?
    ensures ReceiverOk(Read(s, h, b))
  {
    ReadInTwo(s, h, b);
    HeaderKeeps(s, h);
    if b.Got? {
      BodyFollowsHeader(s, h, b);
      BodyKeeps(HeaderRead(s, h), b);
    }
  }

  lemma BodyFollowsHeader(s: State, h: In, b: In)
    requires WireOk(s) && ReadOk(s, h, b) && (s.inbox.Empty? ==> HeaderOk(h)) && b.Got?
    ensures var s' := HeaderRead(s, h);
            && WireOk(s') && !s'.receiverDead && s'.inbox.Partial? && FromWire(s', s'.taken, b)
            && |s'.inbox.buf| + |b.b| <= s'.inbox.sz
  {}

  lemma ReadKeeps(s: State, h: In, b: In)
    requires Inv(s) && ReadOk(s, h, b)
    ensures Inv(Read(s, h, b))
  {
    var s' := Read(s, h, b);
    ReadFrame(s, h, b);
    if (s.inbox.Empty? ==> HeaderOk(h)) && !b.Gone? {
      ReadKeepsReceiver(s, h, b);
    } else {
      assert ReceiverOk(s');
    }
  }

  /** Reading changes nothing on the sender's side. */
  lemma ReadFrame(s: State, h: In, b: In)
    requires WireOk(s) && FramesOk(s) && ReadOk(s, h, b)
    ensures WireOk(Read(s, h, b)) && FramesOk(Read(s, h, b))
    ensures (s.inbox.Empty? && !HeaderOk(h)) || b.Gone? ==>
              Read(s, h, b) == s.(receiverDead := true, inbox := Empty)
  {
    var s' := Read(s, h, b);
    assert s' == s.(receiverDead := s'.receiverDead, inbox := s'.inbox, taken := s'.taken);
  }

  lemma SendEndKeeps(s: State, t: nat)
    requires Inv(s) && Enabled(s, SendEnd(t))
    ensures Inv(Do(s, SendEnd(t)))
  {
    var slot := s.slot.value;
    assert Concat(s.frames) == Concat(s.frames[..|s.frames| - 1]) + slot.frame;
    assert slot.frame[..|slot.frame|] == slot.frame;
    SenderKeepsReceiver(s, Do(s, SendEnd(t)));
  }

  lemma WriteReadyKeeps(s: State, w: Out)
    requires Inv(s) && Enabled(s, WriteReady(w))
    ensures Inv(Do(s, WriteReady(w)))
  {
    WriteKeepsWire(s, s.slot.value, w);
    SenderKeepsReceiver(s, Do(s, WriteReady(w)));
  }

  lemma SendStartKeeps(s: State, t: nat, b: seq<Byte>, w: Out)
    requires Inv(s) && Enabled(s, SendStart(t, b, w))
    ensures Inv(Do(s, SendStart(t, b, w)))
  {
    var f := Framed(b);
    FramedIsWellFramed(b);
    TakeSlot(s, f);
    var s1 := s.(frames := s.frames + [f]);
    WriteKeepsWire(s1, Slot(t, f, 0), w);
    WriteFrame(s1, Slot(t, f, 0), w);
    SenderKeepsReceiver(s, Do(s, SendStart(t, b, w)));
  }

  /** The next frame starts where the wire ends. */
  lemma TakeSlot(s: State, f: Frame)
    requires WireOk(s) && s.slot == None && !s.senderDead
    ensures var fs := s.frames + [f]; fs[..|fs| - 1] == s.frames && s.wire == Concat(fs[..|fs| - 1]) + f[..0]
  {
    assert (s.frames + [f])[..|s.frames|] == s.frames;
  }

  lemma WriteFrame(s: State, slot: Slot, w: Out)
    requires CanWrite(slot, w)
    ensures var s' := Write(s, slot, w);
            s' == s.(senderDead := s'.senderDead, slot := s'.slot, wire := s'.wire)
  {}

  lemma OfferKeeps(s: State, accept: bool)
    requires Inv(s) && Enabled(s, Offer(accept))
    ensures Inv(Do(s, Offer(accept)))
  {
    if accept {
      AcceptKeepsReceiver(s);
    }
  }

  lemma AcceptKeepsReceiver(s: State)
    requires ReceiverOk(s) && Complete(s.inbox)
    ensures ReceiverOk(s.(delivered := s.delivered + [s.inbox.buf], inbox := Empty))
  {
    var k := |s.delivered|;
    assert s.inbox.buf == s.frames[k];
    assert s.delivered + [s.inbox.buf] == s.frames[..k + 1];
    FrameAt(s.frames, k);
  }

  lemma StepKeeps(s: State, a: Action)
    requires Inv(s) && Enabled(s, a)
    ensures Inv(Do(s, a))
  {
    match a
    case SendStart(t, b, w) => SendStartKeeps(s, t, b, w);
    case WriteReady(w) => WriteReadyKeeps(s, w);
    case SendEnd(t) => SendEndKeeps(s, t);
    case CloseSender => CloseKeeps(s, true, s.receiverDead);
    case ReadReady(h, b) => ReadKeeps(s, h, b);
    case Offer(accept) => OfferKeeps(s, accept);
    case CloseReceiver => CloseKeeps(s, s.senderDead, true);
  }

  lemma CloseKeeps(s: State, senderDead: bool, receiverDead: bool)
    requires Inv(s) && (s.senderDead ==> senderDead) && (s.receiverDead ==> receiverDead)
    ensures Inv(s.(senderDead := senderDead, receiverDead := receiverDead))
  {}

  lemma {:induction false} Safe(acts: seq<Action>)
    requires Legal(acts)
    ensures Inv(After(acts))
  {
    if acts != [] {
      Safe(acts[..|acts| - 1]);
      StepKeeps(After(acts[..|acts| - 1]), acts[|acts| - 1]);
    }
  }

  /** Framing is lossless under any chunking: the PDUs handed to the manager are the
      frames sent, in order, none twice, none changed, none skipped, whatever the
      sizes of the writes and reads and however often a PDU is refused. */
  lemma DeliveredInOrder(acts: seq<Action>)
    requires Legal(acts)
    ensures After(acts).delivered <= After(acts).frames
  {
    Safe(acts);
  }

  /** The wire is always whole frames followed by a prefix of the last one, so after
      an error too the receiver sees no byte out of place. */
  lemma WireIsWholeFramesAndAPrefix(acts: seq<Action>)
    requires Legal(acts) && After(acts).frames != []
    ensures var s := After(acts); var last := |s.frames| - 1;
            exists n: nat :: n <= |s.frames[last]| && s.wire == Concat(s.frames[..last]) + s.frames[last][..n]
  {
    Safe(acts);
    var s := After(acts);
    var last := |s.frames| - 1;
    var before := Concat(s.frames[..last]);
    var n := |s.wire| - |before|;
    assert Concat(s.frames) == before + s.frames[last];
    assert s.wire == before + s.frames[last][..n];
  }

  /** A send that returns true has its whole frame on the wire, last and complete. */
  lemma SentMeansOnTheWire(acts: seq<Action>, t: nat)
    requires Legal(acts) && Enabled(After(acts), SendEnd(t)) && !After(acts).senderDead
    ensures var s := After(acts);
            && s.wire == Concat(s.frames) && s.frames != []
            && s.frames[|s.frames| - 1] == s.slot.value.frame
  {
    Safe(acts);
  }

  /** What one write does while a frame is being sent: so many more of its bytes are on
      the wire, or nothing changes, or the sender is dead. */
  lemma WriteExactly(acts: seq<Action>, w: Out)
    requires Legal(acts) && Enabled(After(acts), WriteReady(w))
    requires After(acts).slot.value.solong < |After(acts).slot.value.frame|
    ensures var s, s' := After(acts), Do(After(acts), WriteReady(w));
            s.frames != [] && match w
            case Wrote(n) =>
              && s'.wire == Concat(s.frames[..|s.frames| - 1]) + s.slot.value.frame[..s.slot.value.solong + n]
              && s'.senderDead == s.senderDead
            case WouldBlock => s' == s
            case Broken => s'.wire == s.wire && s'.senderDead
  {
    Safe(acts);
    var s := After(acts);
    WriteAdvances(Concat(s.frames[..|s.frames| - 1]), s.slot.value, w);
  }

  /** The size word alone decides whether a PDU is taken in: the reader gets the length
      of the next frame, and gives up if that is over the limit. */
  lemma SizeWordDecides(acts: seq<Action>, h: In, b: In)
    requires Legal(acts) && Enabled(After(acts), ReadReady(h, b))
    requires After(acts).inbox.Empty? && h.Got? && |h.b| == 4
    ensures var s, s' := After(acts), Do(After(acts), ReadReady(h, b));
            var k := |s.delivered|;
            && k < |s.frames|
            && (|s.frames[k]| > MAX_PDU ==> s'.receiverDead)
            && (|s.frames[k]| <= MAX_PDU && !b.Gone? ==>
                 && !s'.receiverDead && s'.inbox.Partial? && s'.inbox.sz == |s.frames[k]|
                 && |s'.inbox.buf| == 4 + (if b.Got? then |b.b| else 0))
  {
    var s := After(acts);
    var k := |s.delivered|;
    Safe(acts);
    NextBytes(s, k, 0, if k < |s.frames| then 4 else 1);
    assert s.frames[k][0..4] == s.frames[k][..4] == h.b;
  }

  /** A complete PDU is the next frame sent; the manager gets it once, when it accepts,
      and until then it stays where it is. */
  lemma CompleteIsNextFrame(acts: seq<Action>, accept: bool)
    requires Legal(acts) && Enabled(After(acts), Offer(accept))
    ensures var s, s' := After(acts), Do(After(acts), Offer(accept));
            var k := |s.delivered|;
            && k < |s.frames| && s.inbox.buf == s.frames[k]
            && s'.delivered == s.frames[..if accept then k + 1 else k]
            && s'.inbox == if accept then Empty else s.inbox
  {
    Safe(acts);
    NextFrame(After(acts));
  }

  lemma NextFrame(s: State)
    requires ReceiverOk(s) && Complete(s.inbox)
    ensures var k := |s.delivered|;
            && k < |s.frames| && s.inbox.buf == s.frames[k]
            && s.delivered == s.frames[..k] && s.delivered + [s.inbox.buf] == s.frames[..k + 1]
  {}

  /** Nothing is lost: once the reader has read the whole wire and nothing is left in
      either buffer, every frame has been handed over. */
  lemma NothingIsLost(acts: seq<Action>)
    requires Legal(acts)
    requires var s := After(acts);
             && !s.senderDead && s.slot.None?
             && !s.receiverDead && s.inbox.Empty? && s.taken == |s.wire|
    ensures After(acts).delivered == After(acts).frames
  {
    Safe(acts);
    var s := After(acts);
    if |s.delivered| < |s.frames| {
      assert WellFramed(s.frames[|s.delivered|]);
      FrameAt(s.frames, |s.delivered|);
    }
  }
}
