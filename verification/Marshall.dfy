/** The RPC headers as bytes of a PDU. */
module Headers {
  import opened Bytes
  import opened Values
  import opened Codec
  import Frames

  const RPC_HEADER_SZ := Frames.RPC_HEADER_SZ

  type Int32 = x: int | -0x8000_0000 <= x < 0x8000_0000
  type Nonce = x: nat | x < 0x1_0000_0000

  datatype ReqHeader = ReqHeader(xid: Int32, proc: Int32, cltNonce: Nonce, srvNonce: Nonce, xidRep: Int32)

  datatype ReplyHeader = ReplyHeader(xid: Int32, ret: Int32)

  /** Casts between the signed and the unsigned view of 32 bits. */
  function Unsigned(x: Int32): (n: nat)
    ensures n < TWO32
  {
    if x < 0 then x + 0x1_0000_0000 else x
  }

  function Signed(n: nat): Int32
    requires n < TWO32
  {
    if n < 0x8000_0000 then n else n - 0x1_0000_0000
  }

  lemma SignedUnsigned(x: Int32)
    ensures Signed(Unsigned(x)) == x
  {}

  /** What a packed header leaves in bytes 4.. of the PDU; bytes 0..4 are the size. */
  ghost function ReqBytes(h: ReqHeader): (b: seq<Byte>)
    ensures |b| == 20
  {
    Be32(Unsigned(h.xid)) + Be32(Unsigned(h.proc)) + Be32(h.cltNonce) + Be32(h.srvNonce) + Be32(Unsigned(h.xidRep))
  }

  ghost function ReplyBytes(h: ReplyHeader): (b: seq<Byte>)
    ensures |b| == 8
  {
    Be32(Unsigned(h.xid)) + Be32(Unsigned(h.ret))
  }

  /** An `unmarshall` made of a PDU that came in: good, whatever its size. */
  function Opened(buf: seq<Byte>): Cursor {
    Cursor(buf, 0, true, false)
  }

  /** `unmarshall::take_in`: past the header, and good when there is a whole one. */
  function TakenIn(buf: seq<Byte>): Cursor {
    Cursor(buf, RPC_HEADER_SZ, |buf| >= RPC_HEADER_SZ, false)
  }

  function GetSigned(u: Cursor): (Int32, Cursor) {
    var (n, u') := GetInt(u);
    (Signed(n), u')
  }

  function UnpackReq(u: Cursor): (ReqHeader, Cursor) {
    var (xid, u1) := GetSigned(u.(ind := 4));
    var (proc, u2) := GetSigned(u1);
    var (clt, u3) := GetInt(u2);
    var (srv, u4) := GetInt(u3);
    var (rep, u5) := GetSigned(u4);
    (ReqHeader(xid, proc, clt, srv, rep), u5.(ind := RPC_HEADER_SZ))
  }

  function UnpackReply(u: Cursor): (ReplyHeader, Cursor) {
    var (xid, u1) := GetSigned(u.(ind := 4));
    var (ret, u2) := GetSigned(u1);
    (ReplyHeader(xid, ret), u2.(ind := RPC_HEADER_SZ))
  }

  /** Word k of the header, which starts at byte 4. */
  lemma GetWord(u: Cursor, b: seq<Byte>, k: nat, n: nat)
    requires Good(u) && 4 + |b| <= |u.buf| && u.buf[4..4 + |b|] == b
    requires 4 * k + 4 <= |b| && n < TWO32 && b[4 * k..4 * k + 4] == Be32(n)
    ensures GetInt(u.(ind := 4 + 4 * k)) == (n, u.(ind := 8 + 4 * k))
  {
    var m := 4 * k;
    assert u.buf[4..4 + |b|][m..m + 4] == u.buf[4 + m..8 + m];
    GetIntAt(u.(ind := 4 + 4 * k), n);
  }

  /** A packed request header unpacks to the same fields, with the cursor at the body. */
  lemma ReqHeaderRoundTrip(h: ReqHeader, u: Cursor)
    requires u.ok && !u.wild && RPC_HEADER_SZ <= |u.buf|
    requires u.buf[4..24] == ReqBytes(h)
    ensures UnpackReq(u) == (h, u.(ind := RPC_HEADER_SZ))
  {
    var b := ReqBytes(h);
    GetWord(u, b, 0, Unsigned(h.xid));
    GetWord(u, b, 1, Unsigned(h.proc));
    GetWord(u, b, 2, h.cltNonce);
    GetWord(u, b, 3, h.srvNonce);
    GetWord(u, b, 4, Unsigned(h.xidRep));
    SignedUnsigned(h.xid);
    SignedUnsigned(h.proc);
    SignedUnsigned(h.xidRep);
  }

  lemma ReplyHeaderRoundTrip(h: ReplyHeader, u: Cursor)
    requires u.ok && !u.wild && RPC_HEADER_SZ <= |u.buf|
    requires u.buf[4..12] == ReplyBytes(h)
    ensures UnpackReply(u) == (h, u.(ind := RPC_HEADER_SZ))
  {
    var b := ReplyBytes(h);
    GetWord(u, b, 0, Unsigned(h.xid));
    GetWord(u, b, 1, Unsigned(h.ret));
    SignedUnsigned(h.xid);
    SignedUnsigned(h.ret);
  }

  /** The headers word by word: xid, procedure, client nonce, server nonce, xid_rep; and
      xid, return code. */
  lemma HeadersOnTheWire()
    ensures ReqBytes(ReqHeader(1, 0x7001, 3, 0x1020304, -2))
            == [0, 0, 0, 1, 0, 0, 0x70, 1, 0, 0, 0, 3, 1, 2, 3, 4, 0xff, 0xff, 0xff, 0xfe]
    ensures ReplyBytes(ReplyHeader(0x506, -3)) == [0, 0, 5, 6, 0xff, 0xff, 0xff, 0xfd]
  {}

  /** A PDU as the client hands it to `connection::send`. */
  ghost predicate IsRequest(b: seq<Byte>, h: ReqHeader, vs: seq<Value>) {
    |b| >= RPC_HEADER_SZ && b[4..24] == ReqBytes(h) && b[24..] == EncodeAll(vs)
  }

  ghost predicate IsReply(b: seq<Byte>, h: ReplyHeader, v: Value) {
    |b| >= RPC_HEADER_SZ && b[4..12] == ReplyBytes(h) && b[24..] == Encode(v)
  }

  /** End to end: the request framed on the wire gives the server the client's header,
      and the handler wrapper accepts it with the client's arguments. */
  lemma ServerSeesTheCall(b: seq<Byte>, h: ReqHeader, vs: seq<Value>, ts: seq<Type>)
    requires Frames.Sendable(b) && IsRequest(b, h, vs) && HaveTypes(vs, ts)
    ensures var (h', u) := UnpackReq(Opened(Frames.Framed(b)));
            var (vs', u') := DecodeArgs(ts, u);
            h' == h && vs' == vs && OkDone(u') && !u'.wild
  {
    var f := Frames.Framed(b);
    var u := TakenIn(f);
    assert u == Opened(f).(ind := RPC_HEADER_SZ);
    FramedRest(b);
    ReqHeaderRoundTrip(h, Opened(f));
    assert u.buf[u.ind..u.ind + |EncodeAll(vs)|] == f[24..];
    ArgsRoundTrip(vs, ts, u);
  }

  lemma FramedRest(b: seq<Byte>)
    requires Frames.Sendable(b)
    ensures var f := Frames.Framed(b); f[4..24] == b[4..24] && f[24..] == b[24..]
  {
    var f := Frames.Framed(b);
    Frames.FramedIsWellFramed(b);
    assert f[4..24] == f[4..][..20] && b[4..24] == b[4..][..20];
    assert f[24..] == f[4..][20..] && b[24..] == b[4..][20..];
  }

  const UNMARSHAL_REPLY_FAILURE := -3

  /** `rpcc::call_m` with a result variable that holds x: errors pass through, a reply
      of the wrong shape is a failure. */
  ghost function CallResult(ret: int, t: Type, x: Value, u: Cursor): (int, Value)
    requires Fits(t, x)
  {
    if ret < 0 then (ret, x)
    else
      var (v, u') := DecodeInto(t, x, u);
      (if OkDone(u') then ret else UNMARSHAL_REPLY_FAILURE, v)
  }

  /** End to end: the client gets the handler's code, and if that is no error the
      variable holds the handler's result, appended to what it held if it is a vector. */
  lemma ClientSeesTheResult(b: seq<Byte>, h: ReplyHeader, v: Value, t: Type, x: Value)
    requires Frames.Sendable(b) && IsReply(b, h, v) && HasType(v, t) && Fits(t, x)
    ensures UnpackReply(Opened(Frames.Framed(b))).0 == h && UnpackReply(Opened(Frames.Framed(b))).1.ok
    ensures var (ret, v') := CallResult(h.ret, t, x, TakenIn(Frames.Framed(b)));
            && ret == h.ret
            && (h.ret < 0 ==> v' == x)
            && (h.ret >= 0 ==> v' == if t.TVector? then VVector(x.vs + v.vs) else v)
            && (h.ret >= 0 ==> (v' == v <==> !(t.TVector? && x.vs != [])))
  {
    var f := Frames.Framed(b);
    var u := TakenIn(f);
    assert f[4..12] == b[4..12] && f[24..] == b[24..];
    ReplyHeaderRoundTrip(h, Opened(f));
    assert u.buf[u.ind..u.ind + |Encode(v)|] == f[24..];
    RoundTripInto(v, t, x, u);
  }

  ghost predicate IsEncoding(t: Type, body: seq<Byte>) {
    exists w :: Shaped(w, t) && body == Encode(w)
  }

  lemma ParsesExactly(t: Type, u: Cursor, body: seq<Byte>)
    requires Starts(u, body) && !Parse(t, u).1.wild
    ensures OkDone(Parse(t, u).1) <==> IsEncoding(t, body)
  {
    var (w, u') := Parse(t, u);
    if OkDone(u') {
      Canonical(t, u);
      assert body == u.buf[u.ind..u.ind + |Encode(w)|] == Encode(w);
      assert Shaped(w, t);
    }
    if v :| Shaped(v, t) && body == Encode(v) {
      assert u.buf[u.ind..u.ind + |body|] == body;
      ParseEncoded(v, t, u);
    }
  }

  /** What `call_m` returns, exactly: an error code passes through; otherwise the
      handler's code if the body is the encoding of some value of the type, and
      unmarshal_reply_failure for any other body. */
  lemma CallResultExactly(ret: int, t: Type, x: Value, u: Cursor, body: seq<Byte>)
    requires Starts(u, body) && Fits(t, x) && !Decode(t, u).1.wild
    ensures ret < 0 ==> CallResult(ret, t, x, u) == (ret, x)
    ensures ret >= 0 ==>
              CallResult(ret, t, x, u).0 == if IsEncoding(t, body) then ret else UNMARSHAL_REPLY_FAILURE
  {
    ParsesExactly(t, u, body);
    assert DecodeInto(t, x, u).1 == Parse(t, u).1;
  }

  /** Which PDUs complete a call, and which are dispatched. */
  lemma HeadersTakenUp(pdu: seq<Byte>)
    ensures UnpackReply(Opened(pdu)).1.ok <==> |pdu| >= 12
    ensures UnpackReq(Opened(pdu)).1.ok <==> |pdu| >= 24
  {}

  /** A reply too short for a request header completes its call, and fails it. */
  lemma ShortReplyFails(pdu: seq<Byte>, t: Type, x: Value)
    requires 12 <= |pdu| < RPC_HEADER_SZ && Fits(t, x)
    ensures var (h, u) := UnpackReply(Opened(pdu));
            u.ok && CallResult(h.ret, t, x, TakenIn(pdu)).0 == if h.ret < 0 then h.ret else UNMARSHAL_REPLY_FAILURE
  {
    HeadersTakenUp(pdu);
    BadStaysBad(t, TakenIn(pdu));
  }
}

/** The growable write buffer. */
module Marshall {
  import opened Bytes
  import opened Values
  import opened Codec
  import opened Headers

  const DEFAULT_RPC_SZ := 1024

  class Marshall {
    var buf: array<Byte>
    var ind: nat

    /** The write position never passes the capacity. */
    ghost predicate Valid()
      reads this
    {
      ind <= buf.Length && DEFAULT_RPC_SZ <= buf.Length
    }

    ghost function Contents(): (s: seq<Byte>)
      requires Valid()
      reads this, buf
    {
      buf[..ind]
    }

    /** The bytes that lie beyond the write position. */
    ghost function Beyond(): (s: seq<Byte>)
      requires Valid()
      reads this, buf
    {
      buf[ind..]
    }

    constructor ()
      ensures Valid() && fresh(buf) && buf.Length == DEFAULT_RPC_SZ && ind == RPC_HEADER_SZ
    {
      buf := new Byte[DEFAULT_RPC_SZ];
      ind := RPC_HEADER_SZ;
    }

    method Grow(capacity: nat)
      requires Valid() && capacity >= buf.Length
      modifies this`buf
      ensures Valid() && fresh(buf) && buf.Length == capacity && ind == old(ind)
      ensures buf[..old(buf.Length)] == old(buf[..])
    {
      var bigger := new Byte[capacity];
      forall i | 0 <= i < buf.Length {
        bigger[i] := buf[i];
      }
      buf := bigger;
    }

    /** What lies beyond the written bytes stays, and without need the buffer does not
        move. */
    method RawByte(x: Byte)
      requires Valid()
      modifies this, buf
      ensures Valid() && (buf == old(buf) || fresh(buf))
      ensures Contents() == old(Contents()) + [x]
      ensures old(ind < buf.Length) ==> buf == old(buf) && Beyond() == old(Beyond())[1..]
      ensures old(ind == buf.Length) ==> buf.Length == 2 * old(buf.Length)
    {
      if ind >= buf.Length {
        Grow(2 * buf.Length);
      }
      buf[ind] := x;
      ind := ind + 1;
    }

    method RawBytes(p: seq<Byte>)
      requires Valid()
      modifies this, buf
      ensures Valid() && (buf == old(buf) || fresh(buf))
      ensures Contents() == old(Contents()) + p
      ensures buf.Length == old(if ind + |p| <= buf.Length then buf.Length
                                else if buf.Length > |p| then 2 * buf.Length else buf.Length + |p|)
      ensures old(ind + |p| <= buf.Length) ==> buf == old(buf)
    {
      if ind + |p| > buf.Length {
        Grow(if buf.Length > |p| then 2 * buf.Length else buf.Length + |p|);
      }
      forall i | 0 <= i < |p| {
        buf[ind + i] := p[i];
      }
      ind := ind + |p|;
    }

    /** `pack`, and `operator<<` for 32-bit integers. */
    method PutInt(n: nat)
      requires Valid() && n < TWO32
      modifies this, buf
      ensures Valid() && (buf == old(buf) || fresh(buf))
      ensures Contents() == old(Contents()) + Be32(n)
      ensures old(ind + 4 <= buf.Length) ==> buf == old(buf) && Beyond() == old(Beyond())[4..]
    {
      PutFour(Be32(n));
    }

    method PutFour(b: seq<Byte>)
      requires Valid() && |b| == 4
      modifies this, buf
      ensures Valid() && (buf == old(buf) || fresh(buf))
      ensures Contents() == old(Contents()) + b
      ensures old(ind + 4 <= buf.Length) ==> buf == old(buf) && Beyond() == old(Beyond())[4..]
    {
      PutPair(b[..2]);
      PutPair(b[2..]);
      assert b == b[..2] + b[2..];
    }

    method PutPair(b: seq<Byte>)
      requires Valid() && |b| == 2
      modifies this, buf
      ensures Valid() && (buf == old(buf) || fresh(buf))
      ensures Contents() == old(Contents()) + b
      ensures old(ind + 2 <= buf.Length) ==> buf == old(buf) && Beyond() == old(Beyond())[2..]
    {
      RawByte(b[0]);
      RawByte(b[1]);
      assert b == [b[0]] + [b[1]];
    }

    /** `pack` inside the header, where there is always room. */
    method Pack(n: nat)
      requires Valid() && n < TWO32 && ind + 4 <= buf.Length
      modifies this, buf
      ensures Valid() && buf == old(buf)
      ensures Contents() == old(Contents()) + Be32(n) && Beyond() == old(Beyond())[4..]
    {
      PutInt(n);
    }

    method PackTwo(m: nat, n: nat)
      requires Valid() && m < TWO32 && n < TWO32 && ind + 8 <= buf.Length
      modifies this, buf
      ensures Valid() && buf == old(buf)
      ensures Contents() == old(Contents()) + Be32(m) + Be32(n) && Beyond() == old(Beyond())[8..]
    {
      Pack(m);
      Pack(n);
    }

    /** The header can be packed at any time: everything else in the buffer, and the
        write position, stay as they were. */
    method PackReqHeader(h: ReqHeader)
      requires Valid()
      modifies this, buf
      ensures Valid() && buf == old(buf) && ind == old(ind)
      ensures buf[4..24] == ReqBytes(h)
      ensures buf[..4] == old(buf[..4]) && buf[24..] == old(buf[24..])
    {
      var saved := ind;
      ind := 4;
      PackTwo(Unsigned(h.xid), Unsigned(h.proc));
      PackTwo(h.cltNonce, h.srvNonce);
      Pack(Unsigned(h.xidRep));
      assert buf[4..24] == Contents()[4..];
      AfterSize(old(buf[..4]), Be32(Unsigned(h.xid)), Be32(Unsigned(h.proc)),
                Be32(h.cltNonce), Be32(h.srvNonce), Be32(Unsigned(h.xidRep)));
      ind := saved;
    }

    method PackReplyHeader(h: ReplyHeader)
      requires Valid()
      modifies this, buf
      ensures Valid() && buf == old(buf) && ind == old(ind)
      ensures buf[4..12] == ReplyBytes(h)
      ensures buf[..4] == old(buf[..4]) && buf[12..] == old(buf[12..])
    {
      var saved := ind;
      ind := 4;
      PackTwo(Unsigned(h.xid), Unsigned(h.ret));
      assert buf[4..12] == Contents()[4..];
      ind := saved;
    }

    method PutShort(n: nat)
      requires Valid()
      modifies this, buf
      ensures Valid() && (buf == old(buf) || fresh(buf))
      ensures Contents() == old(Contents()) + Encode(VShort(n))
    {
      PutPair([n / 256 % 256, n % 256]);
    }

    method PutLong(n: nat)
      requires Valid()
      modifies this, buf
      ensures Valid() && (buf == old(buf) || fresh(buf))
      ensures Contents() == old(Contents()) + Encode(VLong(n))
    {
      Join(Contents(), Be32(High(n)), Be32(Low(n)));
      PutInt(High(n));
      PutInt(Low(n));
    }

    method PutString(s: seq<Byte>)
      requires Valid()
      modifies this, buf
      ensures Valid() && (buf == old(buf) || fresh(buf))
      ensures Contents() == old(Contents()) + Encode(VString(s))
    {
      Join(Contents(), Be32(Cut(|s|)), s);
      PutInt(Cut(|s|));
      RawBytes(s);
    }

    method PutVector(vs: seq<Value>)
      requires Valid()
      modifies this, buf
      ensures Valid() && (buf == old(buf) || fresh(buf))
      ensures Contents() == old(Contents()) + Encode(VVector(vs))
      decreases vs, 2
    {
      Join(Contents(), Be32(Cut(|vs|)), EncodeAll(vs));
      PutInt(Cut(|vs|));
      PutAll(vs);
    }

    method PutMap(kvs: seq<Entry>)
      requires Valid()
      modifies this, buf
      ensures Valid() && (buf == old(buf) || fresh(buf))
      ensures Contents() == old(Contents()) + Encode(VMap(kvs))
      decreases kvs, 2
    {
      Join(Contents(), Be32(Cut(|kvs|)), EncodeEntries(kvs));
      PutInt(Cut(|kvs|));
      PutEntries(kvs);
    }

    /** `operator<<` for every type: the encoding is appended. */
    method Put(v: Value)
      requires Valid()
      modifies this, buf
      ensures Valid() && (buf == old(buf) || fresh(buf))
      ensures Contents() == old(Contents()) + Encode(v)
      decreases v, 0
    {
      match v {
        case VByte(b) => RawByte(b);
        case VShort(n) => PutShort(n);
        case VInt(n) => PutInt(Cut(n));
        case VLong(n) => PutLong(n);
        case VString(s) => PutString(s);
        case VVector(vs) => PutVector(vs);
        case VMap(kvs) => PutMap(kvs);
      }
    }

    /** The arguments of a call, and the elements of a vector. */
    method PutAll(vs: seq<Value>)
      requires Valid()
      modifies this, buf
      ensures Valid() && (buf == old(buf) || fresh(buf))
      ensures Contents() == old(Contents()) + EncodeAll(vs)
      decreases vs, 1
    {
      for i := 0 to |vs|
        invariant Valid() && (buf == old(buf) || fresh(buf))
        invariant Contents() == old(Contents()) + EncodeAll(vs[..i])
      {
        EncodeOneMore(old(Contents()), vs, i);
        Put(vs[i]);
      }
      assert vs[..|vs|] == vs;
    }

    method PutEntries(kvs: seq<Entry>)
      requires Valid()
      modifies this, buf
      ensures Valid() && (buf == old(buf) || fresh(buf))
      ensures Contents() == old(Contents()) + EncodeEntries(kvs)
      decreases kvs, 1
    {
      for i := 0 to |kvs|
        invariant Valid() && (buf == old(buf) || fresh(buf))
        invariant Contents() == old(Contents()) + EncodeEntries(kvs[..i])
      {
        EncodeOneMoreEntry(old(Contents()), kvs, i);
        PutEntry(kvs[i]);
      }
      assert kvs[..|kvs|] == kvs;
    }

    method PutEntry(kv: Entry)
      requires Valid()
      modifies this, buf
      ensures Valid() && (buf == old(buf) || fresh(buf))
      ensures Contents() == old(Contents()) + EncodeEntry(kv)
      decreases kv, 0
    {
      Put(kv.key);
      Put(kv.val);
    }
  }

  /** The five fields after the size word. */
  lemma AfterSize(size: seq<Byte>, a: seq<Byte>, b: seq<Byte>, c: seq<Byte>, d: seq<Byte>, e: seq<Byte>)
    requires |size| == 4
    ensures (size + a + b + c + d + e)[4..] == a + b + c + d + e
  {
    assert size + a + b + c + d + e == size + (a + b + c + d + e);
  }

  lemma Join(was: seq<Byte>, a: seq<Byte>, b: seq<Byte>)
    ensures was + a + b == was + (a + b)
  {}

  lemma EncodeOneMore(was: seq<Byte>, vs: seq<Value>, i: nat)
    requires i < |vs|
    ensures was + EncodeAll(vs[..i]) + Encode(vs[i]) == was + EncodeAll(vs[..i + 1])
  {
    assert vs[..i + 1] == vs[..i] + [vs[i]];
    EncodeAllAppend(vs[..i], [vs[i]]);
    assert [vs[i]][1..] == [];
  }

  lemma EncodeOneMoreEntry(was: seq<Byte>, kvs: seq<Entry>, i: nat)
    requires i < |kvs|
    ensures was + EncodeEntries(kvs[..i]) + EncodeEntry(kvs[i]) == was + EncodeEntries(kvs[..i + 1])
  {
    EncodeEntriesUpTo(kvs, i);
  }

  lemma {:induction false} EncodeEntriesUpTo(kvs: seq<Entry>, i: nat)
    requires i < |kvs|
    ensures EncodeEntries(kvs[..i + 1]) == EncodeEntries(kvs[..i]) + EncodeEntry(kvs[i])
    decreases i
  {
    if i == 0 {
      assert kvs[..1][1..] == [];
    } else {
      assert kvs[..i + 1][1..] == kvs[1..][..i] && kvs[..i][1..] == kvs[1..][..i - 1];
      EncodeEntriesUpTo(kvs[1..], i - 1);
    }
  }

  /** A whole request, header last as `call1` does it. */
  method MarshallRequest(h: ReqHeader, vs: seq<Value>) returns (pdu: seq<Byte>)
    ensures IsRequest(pdu, h, vs) && |pdu| == 24 + |EncodeAll(vs)|
  {
    var m := new Marshall();
    m.PutAll(vs);
    ghost var body := m.Contents()[24..];
    m.PackReqHeader(h);
    pdu := m.buf[..m.ind];
    assert pdu[24..] == m.buf[24..][..m.ind - 24] == body;
  }

  /** A whole reply: the handler's result, then the header. */
  method MarshallReply(h: ReplyHeader, v: Value) returns (pdu: seq<Byte>)
    ensures IsReply(pdu, h, v) && |pdu| == 24 + |Encode(v)|
  {
    var m := new Marshall();
    m.Put(v);
    ghost var body := m.Contents()[24..];
    m.PackReplyHeader(h);
    pdu := m.buf[..m.ind];
    assert pdu[24..] == m.buf[12..][12..][..m.ind - 24] == body;
  }
}
