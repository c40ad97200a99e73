/** The read buffer, its cursor moved by every read. */
module Unmarshall {
  import opened Wrappers
  import opened Bytes
  import opened Values
  import opened Codec
  import opened Headers

  /** Byte i of the next k, missing ones being zero. */
  lemma TakeAt(u: Cursor, k: nat, i: nat)
    requires i < k
    ensures Take(u, k).0[i] == if u.ind + i < |u.buf| then u.buf[u.ind + i] else 0
  {}

  lemma TakeTwice(u: Cursor)
    ensures Take(u, 4).1 == Take(Take(u, 2).1, 2).1
    ensures Take(u, 4).0 == Take(u, 2).0 + Take(Take(u, 2).1, 2).0
  {
    forall i | 0 <= i < 4 ensures Take(u, 4).0[i] == (Take(u, 2).0 + Take(Take(u, 2).1, 2).0)[i] {
      TakeTwiceAt(u, i);
    }
  }

  lemma TakeTwiceAt(u: Cursor, i: nat)
    requires i < 4
    ensures Take(u, 4).0[i] == if i < 2 then Take(u, 2).0[i] else Take(Take(u, 2).1, 2).0[i - 2]
  {
    TakeAt(u, 4, i);
    if i < 2 {
      TakeAt(u, 2, i);
    } else {
      TakeAt(Take(u, 2).1, 2, i - 2);
    }
  }

  /** vs has been made of x and the first n - m elements that start at u0, and u is
      next. */
  ghost predicate ManyLeft(t: Type, n: nat, u0: Cursor, x: seq<Value>, vs: seq<Value>, m: nat, u: Cursor) {
    && x + NormalAll(t, ParseMany(t, n, u0).0) == vs + NormalAll(t, ParseMany(t, m, u).0)
    && ParseMany(t, n, u0).1 == ParseMany(t, m, u).1
  }

  lemma ManyDone(t: Type, n: nat, u0: Cursor, x: seq<Value>, vs: seq<Value>, u: Cursor)
    requires ManyLeft(t, n, u0, x, vs, 0, u)
    ensures x + NormalAll(t, ParseMany(t, n, u0).0) == vs && ParseMany(t, n, u0).1 == u
  {
    assert vs + [] == vs;
  }

  lemma NormalOneMore(t: Type, n: nat, u0: Cursor, x: seq<Value>, vs: seq<Value>, m: nat, u: Cursor)
    requires m > 0 && ManyLeft(t, n, u0, x, vs, m, u)
    ensures var (v, u') := Decode(t, u); ManyLeft(t, n, u0, x, vs + [v], m - 1, u')
  {
    var (w, u') := Parse(t, u);
    var ws := ParseMany(t, m - 1, u').0;
    assert ([w] + ws)[1..] == ws;
    assert vs + ([Normal(t, w)] + NormalAll(t, ws)) == vs + [Normal(t, w)] + NormalAll(t, ws);
  }

  ghost function DecodeEntry(k: Type, e: Type, u: Cursor): (Entry, Cursor) {
    var (kv, u') := ParseEntry(k, e, u);
    (Entry(Normal(k, kv.key), Normal(e, kv.val)), u')
  }

  ghost predicate EntriesLeft(k: Type, e: Type, n: nat, u0: Cursor, kvs: seq<Entry>, m: nat, u: Cursor) {
    && NormalEntries(k, e, ParseEntries(k, e, n, u0).0, []) == NormalEntries(k, e, ParseEntries(k, e, m, u).0, kvs)
    && ParseEntries(k, e, n, u0).1 == ParseEntries(k, e, m, u).1
  }

  lemma NormalOneMoreEntry(k: Type, e: Type, n: nat, u0: Cursor, kvs: seq<Entry>, m: nat, u: Cursor)
    requires m > 0 && EntriesLeft(k, e, n, u0, kvs, m, u)
    ensures var (kv, u') := DecodeEntry(k, e, u);
            EntriesLeft(k, e, n, u0, Put(k, kvs, kv.key, kv.val), m - 1, u')
  {
    var (kv, u') := ParseEntry(k, e, u);
    var ws := ParseEntries(k, e, m - 1, u').0;
    assert ([kv] + ws)[1..] == ws;
  }

  ghost predicate ArgsLeft(ts: seq<Type>, u0: Cursor, vs: seq<Value>, rest: seq<Type>, u: Cursor) {
    && DecodeArgs(ts, u0).0 == vs + DecodeArgs(rest, u).0
    && DecodeArgs(ts, u0).1 == DecodeArgs(rest, u).1
  }

  lemma ArgsFirst(ts: seq<Type>, u: Cursor)
    ensures ts[..] == ts && ArgsLeft(ts, u, [], ts, u)
  {}

  lemma ArgsDone(ts: seq<Type>, u0: Cursor, vs: seq<Value>, u: Cursor)
    requires ArgsLeft(ts, u0, vs, [], u)
    ensures DecodeArgs(ts, u0) == (vs, u)
  {
    assert vs + [] == vs;
  }

  lemma DecodeOneMore(ts: seq<Type>, u0: Cursor, vs: seq<Value>, rest: seq<Type>, u: Cursor)
    requires rest != [] && ArgsLeft(ts, u0, vs, rest, u)
    ensures var (v, u') := Decode(rest[0], u); ArgsLeft(ts, u0, vs + [v], rest[1..], u')
  {
    DecodeFirst(rest, u);
    var (v, u') := Decode(rest[0], u);
    var more := DecodeArgs(rest[1..], u').0;
    assert vs + ([v] + more) == vs + [v] + more;
  }

  lemma DecodeFirst(ts: seq<Type>, u: Cursor)
    requires ts != []
    ensures var (v, u') := Decode(ts[0], u);
            && DecodeArgs(ts, u).1 == DecodeArgs(ts[1..], u').1
            && DecodeArgs(ts, u).0 == [v] + DecodeArgs(ts[1..], u').0
  {
    var (w, u') := Parse(ts[0], u);
    var ws := ParseArgs(ts[1..], u').0;
    assert ([w] + ws)[1..] == ws;
  }

  /** The PDU is only read, so its bytes are a value. */
  class Unmarshall {
    var buf: seq<Byte>
    var ind: nat
    var ok: bool
    ghost var wild: bool

    ghost function State(): Cursor
      reads this
    {
      Cursor(buf, ind, ok, wild)
    }

    /** A PDU as it comes from the connection. */
    constructor (pdu: seq<Byte>)
      ensures State() == Opened(pdu)
    {
      buf, ind, ok, wild := pdu, 0, true, false;
    }

    /** `take_in`: the PDU changes hands. */
    method TakeIn(another: Unmarshall)
      requires another != this
      modifies this, another`buf, another`ind
      ensures State() == TakenIn(old(another.buf))
      ensures another.buf == [] && another.ind == 0
    {
      buf := another.buf;
      another.buf, another.ind := [], 0;
      ind := RPC_HEADER_SZ;
      ok := |buf| >= RPC_HEADER_SZ;
      wild := false;
    }

    method GetByte() returns (x: Byte)
      modifies this`ind, this`ok
      ensures (x, State()) == RawByte(old(State()))
    {
      x := 0;
      if ind >= |buf| {
        ok := false;
      } else {
        x := buf[ind];
        ind := ind + 1;
      }
    }

    /** A string that cannot be read leaves the old one, x. */
    method GetBytes(n: nat, x: seq<Byte>) returns (s: seq<Byte>)
      modifies this`ind, this`ok, this`wild
      ensures State() == RawBytes(old(State()), n).1
      ensures s == if old(ind) + n <= |buf| then RawBytes(old(State()), n).0 else x
    {
      s := x;
      if (ind + n) % TWO32 > |buf| {
        ok := false;
      } else if ind + n > |buf| {
        wild := true;
      } else {
        s := buf[ind..ind + n];
        ind := ind + n;
      }
    }

    method GetPair() returns (b: seq<Byte>)
      modifies this`ind, this`ok
      ensures (b, State()) == Take(old(State()), 2)
    {
      var b1 := GetByte();
      var b0 := GetByte();
      b := [b1, b0];
      assert b == Take(old(State()), 2).0;
    }

    method GetShort() returns (n: nat)
      modifies this`ind, this`ok
      ensures (n, State()) == Codec.GetShort(old(State()))
    {
      var b := GetPair();
      var hi: int, lo: int := b[0], b[1];
      n := hi * 256 + lo;
    }

    /** `unpack`, and `operator>>` for 32-bit integers. */
    method GetWord() returns (n: nat)
      modifies this`ind, this`ok
      ensures (n, State()) == GetInt(old(State()))
    {
      TakeTwice(State());
      var high := GetPair();
      var low := GetPair();
      n := FromBe32(high + low);
    }

    method UnpackReqHeader() returns (h: ReqHeader)
      modifies this`ind, this`ok
      ensures (h, State()) == UnpackReq(old(State()))
    {
      ind := 4;
      var xid := GetWord();
      var proc := GetWord();
      var clt := GetWord();
      var srv := GetWord();
      var rep := GetWord();
      ind := RPC_HEADER_SZ;
      h := ReqHeader(Signed(xid), Signed(proc), clt, srv, Signed(rep));
    }

    method UnpackReplyHeader() returns (h: ReplyHeader)
      modifies this`ind, this`ok
      ensures (h, State()) == UnpackReply(old(State()))
    {
      ind := 4;
      var xid := GetWord();
      var ret := GetWord();
      ind := RPC_HEADER_SZ;
      h := ReplyHeader(Signed(xid), Signed(ret));
    }

    /** `operator>>` for every type, into a variable that holds x. */
    method Get(t: Type, x: Value) returns (v: Value)
      requires Fits(t, x)
      modifies this`ind, this`ok, this`wild
      ensures (v, State()) == DecodeInto(t, x, old(State()))
      decreases t, 1, 0
    {
      match t {
        case TByte(_) =>
          var b := GetByte();
          v := VByte(b);
        case TShort(_) =>
          var n := GetShort();
          v := VShort(n);
        case TInt(_) =>
          var n := GetWord();
          v := VInt(n);
        case TLong(_) =>
          var h := GetWord();
          var l := GetWord();
          v := VLong(h * 0x1_0000_0000 + l);
        case TString =>
          var s := GetString(x.s);
          v := VString(s);
        case TVector(e) =>
          var n := GetWord();
          var vs := GetMany(e, n, x.vs);
          v := VVector(vs);
        case TMap(k, e) =>
          var n := GetWord();
          var kvs := GetEntries(k, e, n);
          v := VMap(kvs);
      }
    }

    /** Into a variable of its own. */
    method GetFresh(t: Type) returns (v: Value)
      modifies this`ind, this`ok, this`wild
      ensures (v, State()) == Decode(t, old(State()))
      decreases t, 1, 1
    {
      FreshDecode(t, State());
      v := Get(t, Default(t));
    }

    method GetString(x: seq<Byte>) returns (s: seq<Byte>)
      modifies this`ind, this`ok, this`wild
      ensures State() == Codec.GetString(old(State())).1
      ensures s == if StringFits(old(State())) then Codec.GetString(old(State())).0 else x
    {
      var n := GetWord();
      s := x;
      if ok {
        s := GetBytes(n, x);
      }
    }

    /** The elements are pushed onto those that are there. */
    method GetMany(t: Type, n: nat, x: seq<Value>) returns (vs: seq<Value>)
      modifies this`ind, this`ok, this`wild
      ensures vs == x + NormalAll(t, ParseMany(t, n, old(State())).0)
      ensures State() == ParseMany(t, n, old(State())).1
      decreases t, 2
    {
      ghost var u := State();
      vs := x;
      for i := 0 to n
        invariant ManyLeft(t, n, u, x, vs, n - i, State())
      {
        NormalOneMore(t, n, u, x, vs, n - i, State());
        var v := GetFresh(t);
        vs := vs + [v];
      }
      ManyDone(t, n, u, x, vs, State());
    }

    /** The later of two entries with one key wins. */
    method GetEntries(k: Type, e: Type, n: nat) returns (kvs: seq<Entry>)
      modifies this`ind, this`ok, this`wild
      ensures kvs == NormalEntries(k, e, ParseEntries(k, e, n, old(State())).0, [])
      ensures State() == ParseEntries(k, e, n, old(State())).1
      decreases TMap(k, e), 0, 1
    {
      ghost var u := State();
      kvs := [];
      for i := 0 to n
        invariant EntriesLeft(k, e, n, u, kvs, n - i, State())
      {
        NormalOneMoreEntry(k, e, n, u, kvs, n - i, State());
        var kv := GetEntry(k, e);
        kvs := Put(k, kvs, kv.key, kv.val);
      }
    }

    method GetEntry(k: Type, e: Type) returns (kv: Entry)
      modifies this`ind, this`ok, this`wild
      ensures (kv, State()) == DecodeEntry(k, e, old(State()))
      decreases TMap(k, e), 0, 0
    {
      var a := GetFresh(k);
      var b := GetFresh(e);
      kv := Entry(a, b);
    }

    /** The start of a handler wrapper: all arguments, or `unmarshal_args_failure`. */
    method GetArgs(ts: seq<Type>) returns (r: Option<seq<Value>>)
      modifies this`ind, this`ok, this`wild
      ensures State() == DecodeArgs(ts, old(State())).1
      ensures r == if OkDone(State()) then Some(DecodeArgs(ts, old(State())).0) else None
    {
      ghost var u := State();
      var vs := [];
      ArgsFirst(ts, u);
      for i := 0 to |ts|
        invariant ArgsLeft(ts, u, vs, ts[i..], State())
      {
        DecodeOneMore(ts, u, vs, ts[i..], State());
        var v := GetFresh(ts[i]);
        assert ts[i..][1..] == ts[i + 1..];
        vs := vs + [v];
      }
      ArgsDone(ts, u, vs, State());
      r := if ok && ind == |buf| then Some(vs) else None;
    }

    /** The end of `call_m`, after call1 returned intret; the result variable held x. */
    method TakeResult(intret: int, t: Type, x: Value) returns (ret: int, v: Value)
      requires Fits(t, x)
      modifies this`ind, this`ok, this`wild
      ensures (ret, v) == CallResult(intret, t, x, old(State()))
    {
      if intret < 0 {
        return intret, x;
      }
      v := Get(t, x);
      ret := if ok && ind == |buf| then intret else UNMARSHAL_REPLY_FAILURE;
    }
  }
}
