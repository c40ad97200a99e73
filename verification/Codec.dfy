/** The self-delimiting encoding of values, and what decoding accepts. */
module Codec {
  import opened Bytes
  import opened Values

  // ---------- Encoding ----------

  /** The cast to a 32-bit unsigned integer. */
  function Cut(n: nat): nat {
    if n < TWO32 then n else n % TWO32
  }

  /** The two halves of a 64-bit integer. */
  function High(n: nat): (h: nat)
    ensures h < TWO32
  {
    n / 0x1_0000_0000 % 0x1_0000_0000
  }

  function Low(n: nat): (l: nat)
    ensures l < TWO32
  {
    n % 0x1_0000_0000
  }

  /** Sizes and integers are cut to their width, as the casts do. */
  ghost function Encode(v: Value): seq<Byte>
    decreases v, 0
  {
    match v
    case VByte(b) => [b]
    case VShort(n) => [n / 256 % 256, n % 256]
    case VInt(n) => Be32(Cut(n))
    case VLong(n) => Be32(High(n)) + Be32(Low(n))
    case VString(s) => Be32(Cut(|s|)) + s
    case VVector(vs) => Be32(Cut(|vs|)) + EncodeAll(vs)
    case VMap(kvs) => Be32(Cut(|kvs|)) + EncodeEntries(kvs)
  }

  ghost function EncodeAll(vs: seq<Value>): seq<Byte>
    decreases vs, 1
  {
    if vs == [] then [] else Encode(vs[0]) + EncodeAll(vs[1..])
  }

  ghost function EncodeEntries(kvs: seq<Entry>): seq<Byte>
    decreases kvs, 1
  {
    if kvs == [] then [] else EncodeEntry(kvs[0]) + EncodeEntries(kvs[1..])
  }

  ghost function EncodeEntry(kv: Entry): seq<Byte>
    decreases kv, 1
  {
    Encode(kv.key) + Encode(kv.val)
  }

  // ---------- Decoding ----------

  /** An `unmarshall`.  `wild` says that a string read went outside the buffer: the
      32-bit sum in its bounds check had wrapped round. */
  datatype Cursor = Cursor(buf: seq<Byte>, ind: nat, ok: bool, wild: bool)

  /** A read past the end yields zero and clears ok for good. */
  function RawByte(u: Cursor): (Byte, Cursor) {
    if u.ind >= |u.buf| then (0, u.(ok := false)) else (u.buf[u.ind], u.(ind := u.ind + 1))
  }

  /** The next k bytes; zeros stand for those that are missing. */
  function Take(u: Cursor, k: nat): (r: (seq<Byte>, Cursor))
    ensures |r.0| == k
  {
    if u.ind + k <= |u.buf| then (u.buf[u.ind..u.ind + k], u.(ind := u.ind + k))
    else if u.ind >= |u.buf| then (Zeros(k), u.(ok := false))
    else (u.buf[u.ind..] + Zeros(u.ind + k - |u.buf|), u.(ind := |u.buf|, ok := false))
  }

  function Zeros(k: nat): (s: seq<Byte>)
    ensures |s| == k
  {
    seq(k, _ => 0)
  }

  function GetShort(u: Cursor): (nat, Cursor) {
    var (b, u') := Take(u, 2);
    var hi: int, lo: int := b[0], b[1];
    (hi * 256 + lo, u')
  }

  function GetInt(u: Cursor): (nat, Cursor) {
    var (b, u') := Take(u, 4);
    (FromBe32(b), u')
  }

  function RawBytes(u: Cursor, n: nat): (seq<Byte>, Cursor) {
    if (u.ind + n) % TWO32 > |u.buf| then ([], u.(ok := false))
    else if u.ind + n > |u.buf| then ([], u.(wild := true))
    else (u.buf[u.ind..u.ind + n], u.(ind := u.ind + n))
  }

  function GetString(u: Cursor): (seq<Byte>, Cursor) {
    var (n, u1) := GetInt(u);
    if u1.ok then RawBytes(u1, n) else ([], u1)
  }

  /** All that is read for type t, before maps put it in order.  Vectors and maps go
      through all announced elements, whether or not ok. */
  ghost function Parse(t: Type, u: Cursor): (Value, Cursor)
    decreases t, 1, 0
  {
    match t
    case TByte(_) => var (b, u') := RawByte(u); (VByte(b), u')
    case TShort(_) => var (n, u') := GetShort(u); (VShort(n), u')
    case TInt(_) => var (n, u') := GetInt(u); (VInt(n), u')
    case TLong(_) =>
      var (h, u1) := GetInt(u);
      var (l, u2) := GetInt(u1);
      (VLong(h * 0x1_0000_0000 + l), u2)
    case TString => var (s, u') := GetString(u); (VString(s), u')
    case TVector(e) =>
      var (n, u1) := GetInt(u);
      var (vs, u2) := ParseMany(e, n, u1);
      (VVector(vs), u2)
    case TMap(k, e) =>
      var (n, u1) := GetInt(u);
      var (kvs, u2) := ParseEntries(k, e, n, u1);
      (VMap(kvs), u2)
  }

  ghost function ParseMany(t: Type, n: nat, u: Cursor): (seq<Value>, Cursor)
    decreases t, 2, n
  {
    if n == 0 then ([], u)
    else
      var (v, u1) := Parse(t, u);
      var (vs, u2) := ParseMany(t, n - 1, u1);
      ([v] + vs, u2)
  }

  ghost function ParseEntry(k: Type, e: Type, u: Cursor): (Entry, Cursor)
    decreases TMap(k, e), 0, 0
  {
    var (a, u1) := Parse(k, u);
    var (b, u2) := Parse(e, u1);
    (Entry(a, b), u2)
  }

  ghost function ParseEntries(k: Type, e: Type, n: nat, u: Cursor): (seq<Entry>, Cursor)
    decreases TMap(k, e), 0, n
  {
    if n == 0 then ([], u)
    else
      var (kv, u1) := ParseEntry(k, e, u);
      var (kvs, u2) := ParseEntries(k, e, n - 1, u1);
      ([kv] + kvs, u2)
  }

  /** `operator>>`: the variable holds the normal form of what was read. */
  ghost function Decode(t: Type, u: Cursor): (Value, Cursor) {
    var (w, u') := Parse(t, u);
    (Normal(t, w), u')
  }

  /** The announced string lies inside the buffer. */
  ghost predicate StringFits(u: Cursor) {
    var (n, u1) := GetInt(u);
    u1.ok && u1.ind + n <= |u.buf|
  }

  /** What kind of variable an operator for t reads into, where its content matters. */
  predicate Fits(t: Type, x: Value) {
    (t.TString? ==> x.VString?) && (t.TVector? ==> x.VVector?)
  }

  /** A new variable; the numbers in it do not matter. */
  function Default(t: Type): (v: Value)
    ensures Shaped(v, t) && Fits(t, v)
  {
    match t
    case TByte(_) => VByte(0)
    case TShort(_) => VShort(0)
    case TInt(_) => VInt(0)
    case TLong(_) => VLong(0)
    case TString => VString([])
    case TVector(_) => VVector([])
    case TMap(_, _) => VMap([])
  }

  /** `operator>>` into a variable that holds x: elements are pushed onto a vector, a
      string that cannot be read leaves the old one, all else is overwritten. */
  ghost function DecodeInto(t: Type, x: Value, u: Cursor): (Value, Cursor)
    requires Fits(t, x)
  {
    var (v, u') := Decode(t, u);
    match t
    case TVector(_) => (VVector(x.vs + v.vs), u')
    case TString => (if StringFits(u) then v else x, u')
    case _ => (v, u')
  }

  /** The `args >> a1; args >> a2; ...` of a handler wrapper. */
  ghost function ParseArgs(ts: seq<Type>, u: Cursor): (ws: (seq<Value>, Cursor))
    ensures |ws.0| == |ts|
  {
    if ts == [] then ([], u)
    else
      var (v, u1) := Parse(ts[0], u);
      var (vs, u2) := ParseArgs(ts[1..], u1);
      ([v] + vs, u2)
  }

  ghost function NormalArgs(ts: seq<Type>, ws: seq<Value>): (vs: seq<Value>)
    requires |ws| == |ts|
    ensures |vs| == |ws| && forall i :: 0 <= i < |vs| ==> vs[i] == Normal(ts[i], ws[i])
  {
    if ts == [] then [] else [Normal(ts[0], ws[0])] + NormalArgs(ts[1..], ws[1..])
  }

  ghost function DecodeArgs(ts: seq<Type>, u: Cursor): (seq<Value>, Cursor) {
    var (ws, u') := ParseArgs(ts, u);
    (NormalArgs(ts, ws), u')
  }

  predicate OkDone(u: Cursor) {
    u.ok && u.ind == |u.buf|
  }

  // ---------- Parsing what was encoded ----------

  /** The unread part of the buffer starts with e. */
  ghost predicate At(u: Cursor, e: seq<Byte>) {
    && u.ok && !u.wild
    && u.ind + |e| <= |u.buf|
    && u.buf[u.ind..u.ind + |e|] == e
  }

  ghost function Skip(u: Cursor, e: seq<Byte>): Cursor {
    u.(ind := u.ind + |e|)
  }

  lemma AtSplit(u: Cursor, a: seq<Byte>, b: seq<Byte>)
    requires At(u, a + b)
    ensures At(u, a) && At(Skip(u, a), b) && Skip(Skip(u, a), b) == Skip(u, a + b)
  {
    var all := u.buf[u.ind..u.ind + |a + b|];
    assert u.buf[u.ind..u.ind + |a|] == all[..|a|] == a;
    assert u.buf[u.ind + |a|..u.ind + |a| + |b|] == all[|a|..] == b;
  }

  lemma GetIntAt(u: Cursor, n: nat)
    requires n < TWO32 && At(u, Be32(n))
    ensures GetInt(u) == (n, Skip(u, Be32(n)))
  {
    Be32RoundTrip(n);
  }

  lemma GetShortAt(u: Cursor, n: nat)
    requires n < TWO16 && At(u, [n / 256 % 256, n % 256])
    ensures GetShort(u) == (n, u.(ind := u.ind + 2))
  {
    var e: seq<Byte> := [n / 256 % 256, n % 256];
    assert u.buf[u.ind..u.ind + 2] == e;
  }

  lemma RawBytesAt(u: Cursor, s: seq<Byte>)
    requires At(u, s)
    ensures RawBytes(u, |s|) == (s, Skip(u, s))
  {
    assert (u.ind + |s|) % TWO32 <= u.ind + |s|;
  }

  lemma GetStringAt(u: Cursor, s: seq<Byte>)
    requires |s| < TWO32 && At(u, Be32(|s|) + s)
    ensures GetString(u) == (s, Skip(u, Be32(|s|) + s))
  {
    AtSplit(u, Be32(|s|), s);
    GetIntAt(u, |s|);
    RawBytesAt(Skip(u, Be32(|s|)), s);
  }

  lemma GetTwoIntsAt(u: Cursor, h: nat, l: nat)
    requires h < TWO32 && l < TWO32 && At(u, Be32(h) + Be32(l))
    ensures GetInt(u) == (h, Skip(u, Be32(h)))
    ensures GetInt(Skip(u, Be32(h))) == (l, Skip(u, Be32(h) + Be32(l)))
  {
    AtSplit(u, Be32(h), Be32(l));
    GetIntAt(u, h);
    GetIntAt(Skip(u, Be32(h)), l);
  }

  /** A 64-bit integer and its halves determine each other. */
  lemma Halves(n: nat)
    requires n < TWO64
    ensures High(n) * 0x1_0000_0000 + Low(n) == n
  {}

  lemma HalvesBack(h: nat, l: nat)
    requires h < TWO32 && l < TWO32
    ensures h * 0x1_0000_0000 + l < TWO64
    ensures High(h * 0x1_0000_0000 + l) == h && Low(h * 0x1_0000_0000 + l) == l
  {}

  /** A length that fits is not cut. */
  lemma EncodeLengths(v: Value)
    ensures v.VString? && |v.s| < TWO32 ==> Encode(v) == Be32(|v.s|) + v.s
    ensures v.VVector? && |v.vs| < TWO32 ==> Encode(v) == Be32(|v.vs|) + EncodeAll(v.vs)
    ensures v.VMap? && |v.kvs| < TWO32 ==> Encode(v) == Be32(|v.kvs|) + EncodeEntries(v.kvs)
    ensures v.VInt? && v.n < TWO32 ==> Encode(v) == Be32(v.n)
  {}

  lemma {:induction false} ParseEncoded(w: Value, t: Type, u: Cursor)
    requires Shaped(w, t) && At(u, Encode(w))
    ensures Parse(t, u) == (w, Skip(u, Encode(w)))
    decreases w, 0
  {
    match t
    case TVector(e) =>
      EncodeLengths(w);
      ParseVector(w.vs, e, u);
    case TMap(k, e) =>
      EncodeLengths(w);
      ParseMap(w.kvs, k, e, u);
    case _ => ParseLeaf(w, t, u);
  }

  lemma ParseLeaf(w: Value, t: Type, u: Cursor)
    requires !t.TVector? && !t.TMap? && Shaped(w, t) && At(u, Encode(w))
    ensures Parse(t, u) == (w, Skip(u, Encode(w)))
  {
    EncodeLengths(w);
    match t
    case TByte(_) => assert u.buf[u.ind..u.ind + 1][0] == w.b;
    case TShort(_) => GetShortAt(u, w.n);
    case TInt(_) => GetIntAt(u, w.n);
    case TLong(_) =>
      Halves(w.n);
      GetTwoIntsAt(u, High(w.n), Low(w.n));
    case TString => GetStringAt(u, w.s);
  }

  lemma ParseVector(ws: seq<Value>, t: Type, u: Cursor)
    requires |ws| < TWO32 && AllShaped(ws, t) && At(u, Be32(|ws|) + EncodeAll(ws))
    ensures GetInt(u).0 == |ws|
    ensures ParseMany(t, |ws|, GetInt(u).1) == (ws, Skip(u, Be32(|ws|) + EncodeAll(ws)))
    decreases ws, 2
  {
    AtSplit(u, Be32(|ws|), EncodeAll(ws));
    GetIntAt(u, |ws|);
    ParseAll(ws, t, Skip(u, Be32(|ws|)));
  }

  lemma ParseMap(kvs: seq<Entry>, k: Type, e: Type, u: Cursor)
    requires |kvs| < TWO32 && EntriesShaped(kvs, k, e) && At(u, Be32(|kvs|) + EncodeEntries(kvs))
    ensures GetInt(u).0 == |kvs|
    ensures ParseEntries(k, e, |kvs|, GetInt(u).1) == (kvs, Skip(u, Be32(|kvs|) + EncodeEntries(kvs)))
    decreases kvs, 2
  {
    AtSplit(u, Be32(|kvs|), EncodeEntries(kvs));
    GetIntAt(u, |kvs|);
    ParseAllEntries(kvs, k, e, Skip(u, Be32(|kvs|)));
  }

  lemma {:induction false} ParseAll(ws: seq<Value>, t: Type, u: Cursor)
    requires AllShaped(ws, t) && At(u, EncodeAll(ws))
    ensures ParseMany(t, |ws|, u) == (ws, Skip(u, EncodeAll(ws)))
    decreases ws, 1
  {
    if ws != [] {
      FirstOfAll(ws, u);
      ParseEncoded(ws[0], t, u);
      ParseAll(ws[1..], t, Skip(u, Encode(ws[0])));
      ParseOneMore(t, ws, u, Skip(u, EncodeAll(ws)));
    }
  }

  lemma ParseOneMore(t: Type, ws: seq<Value>, u: Cursor, u': Cursor)
    requires ws != [] && Parse(t, u).0 == ws[0]
    requires ParseMany(t, |ws| - 1, Parse(t, u).1) == (ws[1..], u')
    ensures ParseMany(t, |ws|, u) == (ws, u')
  {
    assert ws == [ws[0]] + ws[1..];
  }

  lemma FirstOfAll(ws: seq<Value>, u: Cursor)
    requires ws != [] && At(u, EncodeAll(ws))
    ensures At(u, Encode(ws[0])) && At(Skip(u, Encode(ws[0])), EncodeAll(ws[1..]))
    ensures Skip(Skip(u, Encode(ws[0])), EncodeAll(ws[1..])) == Skip(u, EncodeAll(ws))
  {
    AtSplit(u, Encode(ws[0]), EncodeAll(ws[1..]));
  }

  lemma {:induction false} ParseAllEntries(kvs: seq<Entry>, k: Type, e: Type, u: Cursor)
    requires EntriesShaped(kvs, k, e) && At(u, EncodeEntries(kvs))
    ensures ParseEntries(k, e, |kvs|, u) == (kvs, Skip(u, EncodeEntries(kvs)))
    decreases kvs, 1
  {
    if kvs != [] {
      AtSplit(u, EncodeEntry(kvs[0]), EncodeEntries(kvs[1..]));
      ParseEncodedEntry(kvs[0], k, e, u);
      ParseAllEntries(kvs[1..], k, e, Skip(u, EncodeEntry(kvs[0])));
      ParseOneMoreEntry(k, e, kvs, u, Skip(u, EncodeEntries(kvs)));
    }
  }

  lemma ParseOneMoreEntry(k: Type, e: Type, kvs: seq<Entry>, u: Cursor, u': Cursor)
    requires kvs != [] && ParseEntry(k, e, u).0 == kvs[0]
    requires ParseEntries(k, e, |kvs| - 1, ParseEntry(k, e, u).1) == (kvs[1..], u')
    ensures ParseEntries(k, e, |kvs|, u) == (kvs, u')
  {
    assert kvs == [kvs[0]] + kvs[1..];
  }

  lemma ParseEncodedEntry(kv: Entry, k: Type, e: Type, u: Cursor)
    requires EntryShaped(kv, k, e) && At(u, EncodeEntry(kv))
    ensures ParseEntry(k, e, u) == (kv, Skip(u, EncodeEntry(kv)))
    decreases kv, 1
  {
    AtSplit(u, Encode(kv.key), Encode(kv.val));
    ParseEncoded(kv.key, k, u);
    ParseEncoded(kv.val, e, Skip(u, Encode(kv.key)));
  }

  /** Round trip: the encoding of a value, wherever it stands in a buffer and whatever
      follows it, decodes to the value and leaves the cursor just after it. */
  lemma RoundTrip(v: Value, t: Type, u: Cursor)
    requires HasType(v, t) && At(u, Encode(v))
    ensures Decode(t, u) == (v, Skip(u, Encode(v)))
  {
    TypedIsShaped(v, t);
    ParseEncoded(v, t, u);
    TypedIsNormal(t, v);
  }

  /** The old content counts exactly when it is a vector's and not empty: otherwise the
      variable holds the value that was sent. */
  lemma RoundTripInto(v: Value, t: Type, x: Value, u: Cursor)
    requires HasType(v, t) && Fits(t, x) && At(u, Encode(v))
    ensures DecodeInto(t, x, u).1 == Skip(u, Encode(v))
    ensures DecodeInto(t, x, u).0 == if t.TVector? then VVector(x.vs + v.vs) else v
    ensures DecodeInto(t, x, u).0 == v <==> !(t.TVector? && x.vs != [])
  {
    RoundTrip(v, t, u);
    if t.TString? {
      EncodeLengths(v);
      AtSplit(u, Be32(|v.s|), v.s);
      GetIntAt(u, |v.s|);
    }
    if t.TVector? && x.vs != [] {
      assert |x.vs + v.vs| > |v.vs|;
    }
  }

  /** A string that cannot be read leaves the old one. */
  lemma UnreadStringStays(x: Value, u: Cursor)
    requires x.VString?
    ensures !Good(Decode(TString, u).1) && Good(u) ==> DecodeInto(TString, x, u).0 == x
  {}

  /** A read past the end gives zero or nothing, for every type, and clears ok. */
  lemma ReadPastTheEnd(t: Type, u: Cursor)
    requires u.ind >= |u.buf|
    ensures Decode(t, u) == (Default(t), u.(ok := false))
  {
    assert GetInt(u) == (0, u.(ok := false)) by {
      assert Zeros(4) == [0, 0, 0, 0];
    }
    match t
    case TByte(_) =>
    case TShort(_) => assert Zeros(2) == [0, 0];
    case TInt(_) =>
    case TLong(_) => assert GetInt(u.(ok := false)) == GetInt(u);
    case TString =>
    case TVector(e) => assert ParseMany(e, 0, u.(ok := false)) == ([], u.(ok := false));
    case TMap(k, e) =>
      assert ParseEntries(k, e, 0, u.(ok := false)) == ([], u.(ok := false));
      assert NormalEntries(k, e, [], []) == [];
  }

  // ---------- The bytes on the wire ----------

  lemma {:induction false} CmpAppend(a: seq<Byte>, b: seq<Byte>, c: seq<Byte>, d: seq<Byte>)
    requires |a| == |b|
    ensures CmpBytes(a + c, b + d) == Then(CmpBytes(a, b), CmpBytes(c, d))
  {
    if a == [] {
      assert a + c == c && b + d == d;
    } else {
      CmpAppend(a[1..], b[1..], c, d);
      assert (a + c)[1..] == a[1..] + c && (b + d)[1..] == b[1..] + d;
    }
  }

  lemma CmpPairs(a: Byte, b: Byte, c: Byte, d: Byte)
    ensures var x: int, y: int, x': int, y': int := a, b, c, d;
            CmpBytes([a, b], [c, d]) == Then(Sign(x, x'), Sign(y, y'))
  {
    CmpAppend([a], [c], [b], [d]);
    assert [a, b] == [a] + [b] && [c, d] == [c] + [d];
    CmpOne(a, c);
    CmpOne(b, d);
  }

  lemma CmpOne(a: Byte, c: Byte)
    ensures var x: int, x': int := a, c; CmpBytes([a], [c]) == Sign(x, x')
  {}

  /** Of two numbers the one with the larger quotient is larger, and for equal quotients
      the one with the larger rest. */
  lemma DigitsInOrder(n: nat, m: nat, base: nat)
    requires base > 0
    ensures Sign(n, m) == Then(Sign(n / base, m / base), Sign(n % base, m % base))
  {
    QuotientIsBelow(n, m, base);
    QuotientIsBelow(m, n, base);
    assert n == base * (n / base) + n % base && m == base * (m / base) + m % base;
  }

  lemma QuotientIsBelow(n: nat, m: nat, base: nat)
    requires base > 0
    ensures n / base < m / base ==> n < m
  {
    var q, q' := n / base, m / base;
    if q < q' {
      Multiples(q + 1, q', base);
      assert n < base * (q + 1) && base * q' <= m;
    }
  }

  lemma Multiples(q: nat, q': nat, base: nat)
    requires q <= q'
    ensures base * q <= base * q'
  {}

  lemma PairInOrder(n: nat, m: nat)
    requires n < TWO16 && m < TWO16
    ensures CmpBytes([n / 256, n % 256], [m / 256, m % 256]) == Sign(n, m)
  {
    CmpPairs(n / 256, n % 256, m / 256, m % 256);
    DigitsInOrder(n, m, 256);
  }

  lemma WordInOrder(n: nat, m: nat)
    requires n < TWO32 && m < TWO32
    ensures CmpBytes(Be32(n), Be32(m)) == Sign(n, m)
  {
    WordIsPairs(n);
    WordIsPairs(m);
    CmpAppend(Be32(n)[..2], Be32(m)[..2], Be32(n)[2..], Be32(m)[2..]);
    PairInOrder(n / TWO16, m / TWO16);
    PairInOrder(n % TWO16, m % TWO16);
    DigitsInOrder(n, m, TWO16);
  }

  lemma WordIsPairs(n: nat)
    requires n < TWO32
    ensures Be32(n) == Be32(n)[..2] + Be32(n)[2..]
    ensures Be32(n)[..2] == [n / TWO16 / 256, n / TWO16 % 256]
    ensures Be32(n)[2..] == [n % TWO16 / 256, n % TWO16 % 256]
  {}

  lemma LongIsWords(n: nat)
    requires n < TWO64
    ensures Encode(VLong(n)) == Be32(High(n)) + Be32(Low(n))
    ensures High(n) == n / TWO32 && Low(n) == n % TWO32
  {
    assert n / TWO32 < TWO32;
  }

  lemma WordsInOrder(h: nat, l: nat, h': nat, l': nat)
    requires h < TWO32 && l < TWO32 && h' < TWO32 && l' < TWO32
    ensures CmpBytes(Be32(h) + Be32(l), Be32(h') + Be32(l')) == Then(Sign(h, h'), Sign(l, l'))
  {
    CmpAppend(Be32(h), Be32(h'), Be32(l), Be32(l'));
    WordInOrder(h, h');
    WordInOrder(l, l');
  }

  lemma LongInOrder(n: nat, m: nat)
    requires n < TWO64 && m < TWO64
    ensures CmpBytes(Encode(VLong(n)), Encode(VLong(m))) == Sign(n, m)
  {
    LongIsWords(n);
    LongIsWords(m);
    WordsInOrder(High(n), Low(n), High(m), Low(m));
    DigitsInOrder(n, m, TWO32);
  }

  ghost predicate IsUnsigned(t: Type) {
    (t.TByte? || t.TShort? || t.TInt? || t.TLong?) && !t.signed
  }

  /** Integers go out with the most significant byte first: the encodings of unsigned
      integers are in the order of the integers. */
  lemma EncodingKeepsOrder(t: Type, a: Value, b: Value)
    requires IsUnsigned(t) && Shaped(a, t) && Shaped(b, t)
    ensures CmpBytes(Encode(a), Encode(b)) == Cmp(t, a, b)
  {
    match t
    case TByte(_) => CmpOne(a.b, b.b);
    case TShort(_) => PairInOrder(a.n, b.n);
    case TInt(_) => WordInOrder(a.n, b.n);
    case TLong(_) => LongInOrder(a.n, b.n);
  }

  /** A map from one string to a vector of two shorts: counts before elements, keys
      before values. */
  lemma MapOnTheWire()
    ensures Encode(VMap([Entry(VString([65]), VVector([VShort(1), VShort(0x203)]))]))
            == [0, 0, 0, 1, 0, 0, 0, 1, 65, 0, 0, 0, 2, 0, 1, 2, 3]
  {
    var vs := [VShort(1), VShort(0x203)];
    assert vs[1..] == [VShort(0x203)];
    assert EncodeAll([VShort(0x203)]) == [2, 3];
    assert EncodeAll(vs) == [0, 1] + [2, 3];
    var kv := Entry(VString([65]), VVector(vs));
    assert Encode(kv.val) == [0, 0, 0, 2] + [0, 1, 2, 3];
    assert Encode(kv.key) == [0, 0, 0, 1] + [65];
    assert EncodeEntries([kv]) == EncodeEntry(kv) + [];
  }

  /** A vector of one byte, read into a vector that holds another. */
  lemma OldElementsStay()
    ensures var u := Cursor([0, 0, 0, 1, 2], 0, true, false);
            && DecodeInto(TVector(TByte(false)), VVector([VByte(1)]), u).0 == VVector([VByte(1), VByte(2)])
            && OkDone(DecodeInto(TVector(TByte(false)), VVector([VByte(1)]), u).1)
  {
    var t, v, u := TVector(TByte(false)), VVector([VByte(2)]), Cursor([0, 0, 0, 1, 2], 0, true, false);
    assert v.vs[1..] == [];
    assert Encode(v) == Be32(1) + [2] == u.buf;
    assert HasType(v.vs[0], TByte(false));
    RoundTripInto(v, t, VVector([VByte(1)]), u);
  }

  /** A fresh variable. */
  lemma FreshDecode(t: Type, u: Cursor)
    ensures DecodeInto(t, Default(t), u) == Decode(t, u)
  {
    if t.TVector? {
      assert [] + Decode(t, u).0.vs == Decode(t, u).0.vs;
    }
  }

  /** When a string read leaves the buffer: the sum in its bounds check wraps round. */
  lemma WildExactly(u: Cursor, n: nat)
    requires !u.wild && u.ind <= |u.buf|
    ensures RawBytes(u, n).1.wild <==> u.ind + n > |u.buf| && (u.ind + n) % TWO32 <= |u.buf|
  {}

  // ---------- Nothing else is accepted ----------

  /** From u the decoder read exactly e and is still good. */
  ghost predicate Reads(u: Cursor, u': Cursor, e: seq<Byte>) {
    At(u, e) && u' == Skip(u, e)
  }

  lemma ReadsJoin(u: Cursor, u1: Cursor, u2: Cursor, a: seq<Byte>, b: seq<Byte>)
    requires Reads(u, u1, a) && Reads(u1, u2, b)
    ensures Reads(u, u2, a + b)
  {
    assert u.buf[u.ind..u.ind + |a + b|] == u.buf[u.ind..u.ind + |a|] + u.buf[u.ind + |a|..u.ind + |a| + |b|];
  }

  ghost predicate Good(u: Cursor) {
    u.ok && !u.wild
  }

  lemma GetIntCanonical(u: Cursor)
    requires Good(GetInt(u).1)
    ensures GetInt(u).0 < TWO32 && Reads(u, GetInt(u).1, Be32(GetInt(u).0))
  {
    Be32Canonical(Take(u, 4).0);
  }

  lemma GetShortCanonical(u: Cursor)
    requires Good(GetShort(u).1)
    ensures Shaped(VShort(GetShort(u).0), TShort(false))
    ensures Reads(u, GetShort(u).1, Encode(VShort(GetShort(u).0)))
  {
    var b := u.buf[u.ind..u.ind + 2];
    assert b == [b[0], b[1]];
  }

  lemma GetStringCanonical(u: Cursor)
    requires Good(GetString(u).1)
    ensures |GetString(u).0| < TWO32
    ensures Reads(u, GetString(u).1, Be32(|GetString(u).0|) + GetString(u).0)
  {
    var (n, u1) := GetInt(u);
    GetIntCanonical(u);
    var (s, u2) := GetString(u);
    assert Reads(u1, u2, s);
    ReadsJoin(u, u1, u2, Be32(n), s);
  }

  lemma GetLongCanonical(u: Cursor)
    requires Good(GetInt(GetInt(u).1).1)
    ensures var (h, u1) := GetInt(u); var (l, u2) := GetInt(u1);
            h < TWO32 && l < TWO32 && Reads(u, u2, Be32(h) + Be32(l))
  {
    var (h, u1) := GetInt(u);
    var (l, u2) := GetInt(u1);
    BadStaysBadInt(u1);
    GetIntCanonical(u);
    GetIntCanonical(u1);
    ReadsJoin(u, u1, u2, Be32(h), Be32(l));
  }

  lemma EncodeHalves(h: nat, l: nat)
    requires h < TWO32 && l < TWO32
    ensures Shaped(VLong(h * 0x1_0000_0000 + l), TLong(false))
    ensures Encode(VLong(h * 0x1_0000_0000 + l)) == Be32(h) + Be32(l)
  {
    HalvesBack(h, l);
  }

  lemma BadStaysBadInt(u: Cursor)
    ensures Good(GetInt(u).1) ==> Good(u)
    ensures GetInt(u).1.ok ==> u.ok
  {}

  /** ok is never set again, and what went wild stays wild. */
  lemma {:induction false} BadStaysBad(t: Type, u: Cursor)
    ensures Good(Parse(t, u).1) ==> Good(u)
    ensures Parse(t, u).1.ok ==> u.ok
    decreases t, 1, 0
  {
    match t
    case TLong(_) =>
      BadStaysBadInt(u);
      BadStaysBadInt(GetInt(u).1);
    case TVector(e) =>
      BadStaysBadInt(u);
      BadStaysBadMany(e, GetInt(u).0, GetInt(u).1);
    case TMap(k, e) =>
      BadStaysBadInt(u);
      BadStaysBadEntries(k, e, GetInt(u).0, GetInt(u).1);
    case _ =>
  }

  lemma {:induction false} BadStaysBadMany(t: Type, n: nat, u: Cursor)
    ensures Good(ParseMany(t, n, u).1) ==> Good(u)
    ensures ParseMany(t, n, u).1.ok ==> u.ok
    decreases t, 2, n
  {
    if n > 0 {
      BadStaysBad(t, u);
      BadStaysBadMany(t, n - 1, Parse(t, u).1);
    }
  }

  lemma BadStaysBadEntry(k: Type, e: Type, u: Cursor)
    ensures Good(ParseEntry(k, e, u).1) ==> Good(Parse(k, u).1) && Good(u)
    ensures ParseEntry(k, e, u).1.ok ==> u.ok
    decreases TMap(k, e), 0, 0
  {
    BadStaysBad(k, u);
    BadStaysBad(e, Parse(k, u).1);
  }

  lemma {:induction false} BadStaysBadEntries(k: Type, e: Type, n: nat, u: Cursor)
    ensures Good(ParseEntries(k, e, n, u).1) ==> Good(u)
    ensures ParseEntries(k, e, n, u).1.ok ==> u.ok
    decreases TMap(k, e), 0, n
  {
    if n > 0 {
      BadStaysBadEntry(k, e, u);
      BadStaysBadEntries(k, e, n - 1, ParseEntry(k, e, u).1);
    }
  }

  /** w is what was read from u up to u', and all of it. */
  ghost predicate Exactly(t: Type, u: Cursor, w: Value, u': Cursor) {
    Shaped(w, t) && Reads(u, u', Encode(w))
  }

  /** What parses without error is the encoding of what it parses to. */
  lemma {:induction false} Canonical(t: Type, u: Cursor)
    requires Good(Parse(t, u).1)
    ensures Exactly(t, u, Parse(t, u).0, Parse(t, u).1)
    decreases t, 1, 0
  {
    match t
    case TVector(e) => CanonicalVector(e, u);
    case TMap(k, e) => CanonicalMap(k, e, u);
    case _ => CanonicalLeaf(t, u);
  }

  lemma CanonicalLeaf(t: Type, u: Cursor)
    requires !t.TVector? && !t.TMap? && Good(Parse(t, u).1)
    ensures Exactly(t, u, Parse(t, u).0, Parse(t, u).1)
  {
    match t
    case TByte(_) => assert u.buf[u.ind..u.ind + 1] == [u.buf[u.ind]];
    case TShort(_) => GetShortCanonical(u);
    case TInt(_) => GetIntCanonical(u);
    case TLong(_) => CanonicalLong(t, u);
    case TString => CanonicalString(t, u);
  }

  lemma CanonicalLong(t: Type, u: Cursor)
    requires t.TLong? && Good(Parse(t, u).1)
    ensures Exactly(t, u, Parse(t, u).0, Parse(t, u).1)
  {
    GetLongCanonical(u);
    EncodeHalves(GetInt(u).0, GetInt(GetInt(u).1).0);
  }

  lemma CanonicalString(t: Type, u: Cursor)
    requires t.TString? && Good(Parse(t, u).1)
    ensures Exactly(t, u, Parse(t, u).0, Parse(t, u).1)
  {
    GetStringCanonical(u);
    EncodeLengths(VString(GetString(u).0));
  }

  lemma CanonicalVector(t: Type, u: Cursor)
    requires Good(ParseMany(t, GetInt(u).0, GetInt(u).1).1)
    ensures var (ws, u2) := ParseMany(t, GetInt(u).0, GetInt(u).1);
            Exactly(TVector(t), u, VVector(ws), u2)
    decreases t, 3
  {
    var (n, u1) := GetInt(u);
    BadStaysBadMany(t, n, u1);
    GetIntCanonical(u);
    CanonicalMany(t, n, u1);
    var (ws, u2) := ParseMany(t, n, u1);
    ReadsJoin(u, u1, u2, Be32(n), EncodeAll(ws));
    EncodeLengths(VVector(ws));
  }

  lemma CanonicalMap(k: Type, e: Type, u: Cursor)
    requires Good(ParseEntries(k, e, GetInt(u).0, GetInt(u).1).1)
    ensures var (kvs, u2) := ParseEntries(k, e, GetInt(u).0, GetInt(u).1);
            Exactly(TMap(k, e), u, VMap(kvs), u2)
    decreases TMap(k, e), 0, GetInt(u).0 + 1
  {
    var (n, u1) := GetInt(u);
    BadStaysBadEntries(k, e, n, u1);
    GetIntCanonical(u);
    CanonicalEntries(k, e, n, u1);
    var (kvs, u2) := ParseEntries(k, e, n, u1);
    ReadsJoin(u, u1, u2, Be32(n), EncodeEntries(kvs));
    EncodeLengths(VMap(kvs));
  }

  lemma {:induction false} CanonicalMany(t: Type, n: nat, u: Cursor)
    requires Good(ParseMany(t, n, u).1)
    ensures |ParseMany(t, n, u).0| == n && AllShaped(ParseMany(t, n, u).0, t)
    ensures u.ind > |u.buf| || Reads(u, ParseMany(t, n, u).1, EncodeAll(ParseMany(t, n, u).0))
    decreases t, 2, n
  {
    if n > 0 {
      var (w, u1) := Parse(t, u);
      var (ws, u2) := ParseMany(t, n - 1, u1);
      BadStaysBadMany(t, n - 1, u1);
      Canonical(t, u);
      CanonicalMany(t, n - 1, u1);
      ReadsJoin(u, u1, u2, Encode(w), EncodeAll(ws));
      ConsValues(t, w, ws);
    }
  }

  lemma ConsValues(t: Type, w: Value, ws: seq<Value>)
    requires Shaped(w, t) && AllShaped(ws, t)
    ensures AllShaped([w] + ws, t)
    ensures EncodeAll([w] + ws) == Encode(w) + EncodeAll(ws)
  {
    assert ([w] + ws)[1..] == ws;
  }

  lemma CanonicalEntry(k: Type, e: Type, u: Cursor)
    requires Good(ParseEntry(k, e, u).1)
    ensures var (kv, u') := ParseEntry(k, e, u);
            EntryShaped(kv, k, e) && Reads(u, u', EncodeEntry(kv))
    decreases TMap(k, e), 0, 0
  {
    BadStaysBadEntry(k, e, u);
    var (a, u1) := Parse(k, u);
    var (b, u2) := Parse(e, u1);
    Canonical(k, u);
    Canonical(e, u1);
    ReadsJoin(u, u1, u2, Encode(a), Encode(b));
  }

  lemma {:induction false} CanonicalEntries(k: Type, e: Type, n: nat, u: Cursor)
    requires Good(ParseEntries(k, e, n, u).1)
    ensures var (kvs, u') := ParseEntries(k, e, n, u);
            |kvs| == n && EntriesShaped(kvs, k, e) && (u.ind > |u.buf| || Reads(u, u', EncodeEntries(kvs)))
    decreases TMap(k, e), 0, n
  {
    if n > 0 {
      var (kv, u1) := ParseEntry(k, e, u);
      var (kvs, u2) := ParseEntries(k, e, n - 1, u1);
      BadStaysBadEntries(k, e, n - 1, u1);
      CanonicalEntry(k, e, u);
      CanonicalEntries(k, e, n - 1, u1);
      ReadsJoin(u, u1, u2, EncodeEntry(kv), EncodeEntries(kvs));
      ConsEntries(k, e, kv, kvs);
    }
  }

  lemma ConsEntries(k: Type, e: Type, kv: Entry, kvs: seq<Entry>)
    requires EntryShaped(kv, k, e) && EntriesShaped(kvs, k, e)
    ensures EntriesShaped([kv] + kvs, k, e)
    ensures EncodeEntries([kv] + kvs) == EncodeEntry(kv) + EncodeEntries(kvs)
  {
    assert ([kv] + kvs)[1..] == kvs;
  }

  // ---------- Argument lists ----------

  ghost predicate HaveTypes(vs: seq<Value>, ts: seq<Type>) {
    |vs| == |ts| && forall i :: 0 <= i < |vs| ==> HasType(vs[i], ts[i])
  }

  ghost predicate HaveShapes(ws: seq<Value>, ts: seq<Type>) {
    |ws| == |ts| && forall i :: 0 <= i < |ws| ==> Shaped(ws[i], ts[i])
  }

  lemma {:induction false} ParseEncodedArgs(ws: seq<Value>, ts: seq<Type>, u: Cursor)
    requires HaveShapes(ws, ts) && At(u, EncodeAll(ws))
    ensures ParseArgs(ts, u) == (ws, Skip(u, EncodeAll(ws)))
    decreases |ws|
  {
    if ws != [] {
      FirstOfAll(ws, u);
      var u1 := Skip(u, Encode(ws[0]));
      ParseEncoded(ws[0], ts[0], u);
      ParseEncodedArgs(ws[1..], ts[1..], u1);
      ParseArgsCons(ts, u, ws[0], u1, ws[1..], Skip(u, EncodeAll(ws)));
      assert ws == [ws[0]] + ws[1..];
    }
  }

  lemma ParseArgsCons(ts: seq<Type>, u: Cursor, w: Value, u1: Cursor, ws: seq<Value>, u2: Cursor)
    requires ts != [] && Parse(ts[0], u) == (w, u1) && ParseArgs(ts[1..], u1) == (ws, u2)
    ensures ParseArgs(ts, u) == ([w] + ws, u2)
  {}

  lemma TypedArgs(vs: seq<Value>, ts: seq<Type>)
    requires HaveTypes(vs, ts)
    ensures HaveShapes(vs, ts) && NormalArgs(ts, vs) == vs
  {
    forall i | 0 <= i < |vs| ensures Shaped(vs[i], ts[i]) && Normal(ts[i], vs[i]) == vs[i] {
      TypedIsShaped(vs[i], ts[i]);
      TypedIsNormal(ts[i], vs[i]);
    }
  }

  /** The arguments of a call decode to themselves. */
  lemma ArgsRoundTrip(vs: seq<Value>, ts: seq<Type>, u: Cursor)
    requires HaveTypes(vs, ts) && At(u, EncodeAll(vs))
    ensures DecodeArgs(ts, u) == (vs, Skip(u, EncodeAll(vs)))
  {
    TypedArgs(vs, ts);
    ParseEncodedArgs(vs, ts, u);
  }

  lemma {:induction false} ArgsBadStaysBad(ts: seq<Type>, u: Cursor)
    ensures Good(ParseArgs(ts, u).1) ==> Good(u)
    decreases |ts|
  {
    if ts != [] {
      ArgsBadStaysBad(ts[1..], Parse(ts[0], u).1);
      BadStaysBad(ts[0], u);
    }
  }

  lemma {:induction false} ArgsCanonical(ts: seq<Type>, u: Cursor)
    requires u.ind <= |u.buf| && Good(ParseArgs(ts, u).1)
    ensures HaveShapes(ParseArgs(ts, u).0, ts)
    ensures Reads(u, ParseArgs(ts, u).1, EncodeAll(ParseArgs(ts, u).0))
    decreases |ts|
  {
    if ts != [] {
      var (w, u1) := Parse(ts[0], u);
      var (ws, u2) := ParseArgs(ts[1..], u1);
      ArgsBadStaysBad(ts[1..], u1);
      Canonical(ts[0], u);
      ArgsCanonical(ts[1..], u1);
      ReadsJoin(u, u1, u2, Encode(w), EncodeAll(ws));
      assert ([w] + ws)[0] == w && ([w] + ws)[1..] == ws;
    }
  }

  /** A cursor at the start of the arguments body. */
  ghost predicate Starts(u: Cursor, body: seq<Byte>) {
    Good(u) && u.ind <= |u.buf| && u.buf[u.ind..] == body
  }

  /** The handler wrapper goes on to call the handler. */
  ghost predicate Accepts(ts: seq<Type>, u: Cursor) {
    OkDone(DecodeArgs(ts, u).1) && !DecodeArgs(ts, u).1.wild
  }

  /** okdone exactly, for all types: a body is accepted iff it encodes some list of
      values of the right shapes; then the arguments are their normal forms. */
  lemma AcceptedExactly(ts: seq<Type>, u: Cursor, body: seq<Byte>)
    requires Starts(u, body)
    ensures Accepts(ts, u) <==> exists ws :: HaveShapes(ws, ts) && body == EncodeAll(ws)
    ensures forall ws :: HaveShapes(ws, ts) && body == EncodeAll(ws) ==> DecodeArgs(ts, u).0 == NormalArgs(ts, ws)
  {
    if Accepts(ts, u) {
      AcceptedIsEncoded(ts, u, body);
    }
    forall ws | HaveShapes(ws, ts) && body == EncodeAll(ws)
      ensures Accepts(ts, u) && ParseArgs(ts, u).0 == ws
    {
      EncodedIsAccepted(ts, u, body, ws);
    }
  }

  /** okdone alone does not see a wrapped string read: here it holds, and the body is
      not an encoding. */
  lemma WrappedStringPassesOkDone()
    ensures var u := Cursor(Zeros(24) + [255, 255, 255, 255], 24, true, false);
            && OkDone(DecodeArgs([TString], u).1) && DecodeArgs([TString], u).1.wild
            && !exists ws :: HaveShapes(ws, [TString]) && u.buf[24..] == EncodeAll(ws)
  {
    var u := Cursor(Zeros(24) + [255, 255, 255, 255], 24, true, false);
    assert Take(u, 4).0 == [255, 255, 255, 255];
    assert GetInt(u) == (0xFFFF_FFFF, u.(ind := 28));
    assert Parse(TString, u).1 == u.(ind := 28, wild := true);
    assert ParseArgs([TString][1..], u.(ind := 28, wild := true)).1 == u.(ind := 28, wild := true);
    AcceptedExactly([TString], u, u.buf[24..]);
  }

  lemma AcceptedIsEncoded(ts: seq<Type>, u: Cursor, body: seq<Byte>)
    requires Starts(u, body) && Accepts(ts, u)
    ensures HaveShapes(ParseArgs(ts, u).0, ts) && body == EncodeAll(ParseArgs(ts, u).0)
  {
    ArgsCanonical(ts, u);
    var ws := ParseArgs(ts, u).0;
    assert body == u.buf[u.ind..u.ind + |EncodeAll(ws)|];
  }

  lemma EncodedIsAccepted(ts: seq<Type>, u: Cursor, body: seq<Byte>, ws: seq<Value>)
    requires Starts(u, body) && HaveShapes(ws, ts) && body == EncodeAll(ws)
    ensures Accepts(ts, u) && ParseArgs(ts, u).0 == ws
  {
    assert u.buf[u.ind..u.ind + |body|] == body;
    ParseEncodedArgs(ws, ts, u);
  }

  /** Exactness: an accepted body is the encoding of the arguments that come out iff in
      every map that was sent the keys ascend strictly. */
  lemma ExactIffAscending(ts: seq<Type>, u: Cursor, body: seq<Byte>, ws: seq<Value>)
    requires Starts(u, body) && HaveShapes(ws, ts) && body == EncodeAll(ws)
    ensures Accepts(ts, u)
    ensures EncodeAll(DecodeArgs(ts, u).0) == body <==> HaveTypes(ws, ts)
  {
    EncodedIsAccepted(ts, u, body, ws);
    var vs := NormalArgs(ts, ws);
    NormalArgsHaveTypes(ts, ws);
    if EncodeAll(vs) == body {
      TypedArgs(vs, ts);
      EncodedIsAccepted(ts, u, body, vs);
      assert ws == vs;
    }
    if HaveTypes(ws, ts) {
      TypedArgs(ws, ts);
    }
  }

  lemma NormalArgsHaveTypes(ts: seq<Type>, ws: seq<Value>)
    requires HaveShapes(ws, ts)
    ensures HaveTypes(NormalArgs(ts, ws), ts)
  {
    forall i | 0 <= i < |ws| ensures HasType(Normal(ts[i], ws[i]), ts[i]) {
      NormalHasType(ts[i], ws[i]);
    }
  }

  // ---------- Which handlers accept nothing but exact encodings ----------

  predicate NoMaps(ts: seq<Type>) {
    forall i :: 0 <= i < |ts| ==> NoMap(ts[i])
  }

  /** Whatever such a handler accepts is the encoding of the arguments it gets. */
  ghost predicate Exact(ts: seq<Type>) {
    forall u, body :: Starts(u, body) && Accepts(ts, u) ==> EncodeAll(DecodeArgs(ts, u).0) == body
  }

  /** What can be sent for a type with a map in it and is not held as it was sent: a
      map with the same key twice. */
  ghost function Repeated(t: Type): (w: Value)
    requires !NoMap(t)
    ensures Shaped(w, t)
  {
    match t
    case TVector(e) => VVector([Repeated(e)])
    case TMap(k, e) =>
      var kv := Entry(Default(k), Default(e));
      assert EntryShaped(kv, k, e);
      VMap([kv, kv])
  }

  lemma {:induction false} RepeatedHasNoType(t: Type)
    requires !NoMap(t)
    ensures !HasType(Repeated(t), t)
  {
    match t
    case TVector(e) =>
      RepeatedHasNoType(e);
      assert Repeated(t).vs[0] == Repeated(e);
    case TMap(k, e) =>
      Antisymmetric(k, Default(k), Default(k));
      assert Cmp(k, Repeated(t).kvs[0].key, Repeated(t).kvs[1].key) == 0;
  }

  /** A handler accepts nothing but exact encodings iff none of its argument types
      contains a map. */
  lemma ExactIffNoMaps(ts: seq<Type>)
    ensures Exact(ts) <==> NoMaps(ts)
  {
    if NoMaps(ts) {
      forall u, body | Starts(u, body) && Accepts(ts, u) ensures EncodeAll(DecodeArgs(ts, u).0) == body {
        AcceptedIsEncoded(ts, u, body);
        var ws := ParseArgs(ts, u).0;
        forall i | 0 <= i < |ws| ensures HasType(ws[i], ts[i]) {
          NoMapIsTyped(ts[i], ws[i]);
        }
        ExactIffAscending(ts, u, body, ws);
      }
    } else {
      var k :| 0 <= k < |ts| && !NoMap(ts[k]);
      var ws := seq(|ts|, i requires 0 <= i < |ts| => if i == k then Repeated(ts[k]) else Default(ts[i]));
      RepeatedHasNoType(ts[k]);
      assert !HasType(ws[k], ts[k]);
      var body := EncodeAll(ws);
      var u := Cursor(body, 0, true, false);
      assert Starts(u, body);
      ExactIffAscending(ts, u, body, ws);
    }
  }

  // ---------- Arity ----------

  lemma {:induction false} EncodeAllAppend(a: seq<Value>, b: seq<Value>)
    ensures EncodeAll(a + b) == EncodeAll(a) + EncodeAll(b)
    decreases |a|
  {
    if a == [] {
      assert a + b == b;
    } else {
      assert (a + b)[1..] == a[1..] + b;
      EncodeAllAppend(a[1..], b);
    }
  }

  lemma EncodeNotEmpty(v: Value)
    requires v.VVector? ==> |v.vs| < TWO32
    requires v.VMap? ==> |v.kvs| < TWO32
    ensures |Encode(v)| > 0
  {}

  lemma SomethingMore(ws: seq<Value>, ts: seq<Type>)
    requires HaveShapes(ws, ts) && ts != []
    ensures |EncodeAll(ws)| > 0
  {
    assert Shaped(ws[0], ts[0]);
    EncodeNotEmpty(ws[0]);
  }

  /** Wrong arity is rejected: a body that encodes more or fewer arguments than the
      handler takes never passes okdone, whatever their types. */
  lemma WrongArityIsRejected(ws: seq<Value>, ts: seq<Type>, more: seq<Type>, u: Cursor)
    requires more != [] && HaveShapes(ws, ts + more)
    requires Good(u) && u.ind <= |u.buf|
    ensures u.buf[u.ind..] == EncodeAll(ws) ==> !Accepts(ts, u)
    ensures u.buf[u.ind..] == EncodeAll(ws[..|ts|]) ==> !Accepts(ts + more, u)
  {
    var k := |ts|;
    var few, extra := ws[..k], ws[k..];
    assert ws == few + extra;
    assert HaveShapes(few, ts) && HaveShapes(extra, more);
    EncodeAllAppend(few, extra);
    SomethingMore(extra, more);
    if u.buf[u.ind..] == EncodeAll(ws) {
      assert u.buf[u.ind..u.ind + |EncodeAll(ws)|] == EncodeAll(ws);
      AtSplit(u, EncodeAll(few), EncodeAll(extra));
      ParseEncodedArgs(few, ts, u);
    }
    if u.buf[u.ind..] == EncodeAll(few) {
      assert u.buf[u.ind..u.ind + |EncodeAll(few)|] == EncodeAll(few);
      ParseEncodedArgs(few, ts, u);
      ArgsAppend(ts, more, u);
      NothingAtTheEnd(more, Skip(u, EncodeAll(few)));
    }
  }

  /** At the end of the buffer there is no argument left to read. */
  lemma NothingAtTheEnd(ts: seq<Type>, u: Cursor)
    requires ts != [] && u.ind == |u.buf|
    ensures !Good(ParseArgs(ts, u).1)
  {
    if Good(ParseArgs(ts, u).1) {
      ArgsCanonical(ts, u);
      SomethingMore(ParseArgs(ts, u).0, ts);
    }
  }

  lemma {:induction false} ArgsAppend(a: seq<Type>, b: seq<Type>, u: Cursor)
    ensures ParseArgs(a + b, u).1 == ParseArgs(b, ParseArgs(a, u).1).1
    decreases |a|
  {
    if a == [] {
      assert a + b == b;
    } else {
      assert (a + b)[1..] == a[1..] + b;
      ArgsAppend(a[1..], b, Parse(a[0], u).1);
    }
  }
}
