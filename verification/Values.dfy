/** RPC arguments and results: their types, values and self-delimiting encoding. */
module Values {
  import opened Wrappers
  import opened Bytes

  datatype Type =
    | TByte(signed: bool) | TShort(signed: bool) | TInt(signed: bool) | TLong(signed: bool)
    | TString | TVector(elem: Type) | TMap(key: Type, val: Type)

  /** Integers are their bit patterns; a map is a list of entries. */
  datatype Value =
    | VByte(b: Byte) | VShort(n: nat) | VInt(n: nat) | VLong(n: nat)
    | VString(s: seq<Byte>) | VVector(vs: seq<Value>) | VMap(kvs: seq<Entry>)

  datatype Entry = Entry(key: Value, val: Value)

  const TWO8 := 0x100
  const TWO16 := 0x1_0000
  const TWO64 := 0x1_0000_0000_0000_0000

  /** v has the shape of type t; the entries of its maps may be in any order and
      their keys repeated, as they may be on the wire. */
  ghost predicate Shaped(v: Value, t: Type)
    decreases v, 0
  {
    match t
    case TByte(_) => v.VByte?
    case TShort(_) => v.VShort? && v.n < TWO16
    case TInt(_) => v.VInt? && v.n < TWO32
    case TLong(_) => v.VLong? && v.n < TWO64
    case TString => v.VString? && |v.s| < TWO32
    case TVector(e) => v.VVector? && |v.vs| < TWO32 && AllShaped(v.vs, e)
    case TMap(k, e) => v.VMap? && |v.kvs| < TWO32 && EntriesShaped(v.kvs, k, e)
  }

  ghost predicate AllShaped(vs: seq<Value>, t: Type)
    decreases vs, 1
  {
    forall i :: 0 <= i < |vs| ==> Shaped(vs[i], t)
  }

  ghost predicate EntriesShaped(kvs: seq<Entry>, k: Type, e: Type)
    decreases kvs, 1
  {
    forall i :: 0 <= i < |kvs| ==> EntryShaped(kvs[i], k, e)
  }

  ghost predicate EntryShaped(kv: Entry, k: Type, e: Type)
    decreases kv, 1
  {
    Shaped(kv.key, k) && Shaped(kv.val, e)
  }

  /** v is a value that a variable of type t can hold: the keys of its maps ascend. */
  ghost predicate HasType(v: Value, t: Type)
    decreases v, 0
  {
    match t
    case TVector(e) => v.VVector? && |v.vs| < TWO32 && AllHaveType(v.vs, e)
    case TMap(k, e) => v.VMap? && |v.kvs| < TWO32 && EntriesHaveType(v.kvs, k, e) && Ascending(k, v.kvs)
    case _ => Shaped(v, t)
  }

  ghost predicate AllHaveType(vs: seq<Value>, t: Type)
    decreases vs, 1
  {
    forall i :: 0 <= i < |vs| ==> HasType(vs[i], t)
  }

  ghost predicate EntriesHaveType(kvs: seq<Entry>, k: Type, e: Type)
    decreases kvs, 1
  {
    forall i :: 0 <= i < |kvs| ==> EntryHasType(kvs[i], k, e)
  }

  ghost predicate EntryHasType(kv: Entry, k: Type, e: Type)
    decreases kv, 1
  {
    HasType(kv.key, k) && HasType(kv.val, e)
  }

  predicate NoMap(t: Type) {
    match t
    case TVector(e) => NoMap(e)
    case TMap(_, _) => false
    case _ => true
  }

  // ---------- The order of keys ----------

  function Sign(x: int, y: int): int {
    if x < y then -1 else if x > y then 1 else 0
  }

  /** The integer of a bit pattern. */
  function Number(n: nat, size: nat, signed: bool): int {
    if signed && 2 * n >= size then n - size else n
  }

  /** The order of `operator<` on type t: negative, zero or positive.  Strings compare
      as unsigned bytes, containers lexicographically, entries by key and then value. */
  function Cmp(t: Type, a: Value, b: Value): int
    decreases t, 0
  {
    match t
    case TByte(s) =>
      if a.VByte? && b.VByte? then Sign(Number(a.b, TWO8, s), Number(b.b, TWO8, s)) else 0
    case TShort(s) =>
      if a.VShort? && b.VShort? then Sign(Number(a.n, TWO16, s), Number(b.n, TWO16, s)) else 0
    case TInt(s) =>
      if a.VInt? && b.VInt? then Sign(Number(a.n, TWO32, s), Number(b.n, TWO32, s)) else 0
    case TLong(s) =>
      if a.VLong? && b.VLong? then Sign(Number(a.n, TWO64, s), Number(b.n, TWO64, s)) else 0
    case TString => if a.VString? && b.VString? then CmpBytes(a.s, b.s) else 0
    case TVector(e) => if a.VVector? && b.VVector? then CmpAll(e, a.vs, b.vs) else 0
    case TMap(k, e) => if a.VMap? && b.VMap? then CmpEntries(k, e, a.kvs, b.kvs) else 0
  }

  function CmpBytes(a: seq<Byte>, b: seq<Byte>): int {
    if a == [] || b == [] then Sign(|a|, |b|)
    else if a[0] != b[0] then Sign(a[0], b[0])
    else CmpBytes(a[1..], b[1..])
  }

  function CmpAll(t: Type, a: seq<Value>, b: seq<Value>): int
    decreases t, 1, |a|
  {
    if a == [] || b == [] then Sign(|a|, |b|)
    else Then(Cmp(t, a[0], b[0]), CmpAll(t, a[1..], b[1..]))
  }

  function CmpEntries(k: Type, e: Type, a: seq<Entry>, b: seq<Entry>): int
    decreases TMap(k, e), 0, |a|
  {
    if a == [] || b == [] then Sign(|a|, |b|)
    else Then(CmpEntry(k, e, a[0], b[0]), CmpEntries(k, e, a[1..], b[1..]))
  }

  function CmpEntry(k: Type, e: Type, a: Entry, b: Entry): int
    decreases TMap(k, e), 0, 0
  {
    Then(Cmp(k, a.key, b.key), Cmp(e, a.val, b.val))
  }

  /** The second comparison decides when the first does not. */
  function Then(c: int, d: int): int {
    if c != 0 then c else d
  }

  ghost predicate Ascending(k: Type, kvs: seq<Entry>) {
    forall i, j :: 0 <= i < j < |kvs| ==> Cmp(k, kvs[i].key, kvs[j].key) < 0
  }

  lemma {:induction false} Antisymmetric(t: Type, a: Value, b: Value)
    ensures Cmp(t, a, b) == -Cmp(t, b, a)
    decreases t, 0
  {
    match t
    case TString =>
      if a.VString? && b.VString? {
        BytesAntisymmetric(a.s, b.s);
      }
    case TVector(e) =>
      if a.VVector? && b.VVector? {
        AllAntisymmetric(e, a.vs, b.vs);
      }
    case TMap(k, e) =>
      if a.VMap? && b.VMap? {
        EntriesAntisymmetric(k, e, a.kvs, b.kvs);
      }
    case _ =>
  }

  lemma {:induction false} BytesAntisymmetric(a: seq<Byte>, b: seq<Byte>)
    ensures CmpBytes(a, b) == -CmpBytes(b, a)
  {
    if a != [] && b != [] {
      BytesAntisymmetric(a[1..], b[1..]);
    }
  }

  lemma {:induction false} AllAntisymmetric(t: Type, a: seq<Value>, b: seq<Value>)
    ensures CmpAll(t, a, b) == -CmpAll(t, b, a)
    decreases t, 1, |a|
  {
    if a != [] && b != [] {
      Antisymmetric(t, a[0], b[0]);
      AllAntisymmetric(t, a[1..], b[1..]);
    }
  }

  lemma {:induction false} EntriesAntisymmetric(k: Type, e: Type, a: seq<Entry>, b: seq<Entry>)
    ensures CmpEntries(k, e, a, b) == -CmpEntries(k, e, b, a)
    decreases TMap(k, e), 0, |a|
  {
    if a != [] && b != [] {
      Antisymmetric(k, a[0].key, b[0].key);
      Antisymmetric(e, a[0].val, b[0].val);
      EntriesAntisymmetric(k, e, a[1..], b[1..]);
    }
  }

  /** What transitivity says of the comparisons of a with b, b with c and a with c. */
  ghost predicate Chained(ab: int, bc: int, ac: int) {
    && (ab <= 0 && bc <= 0 ==> ac <= 0 && (ac == 0 <==> ab == 0 && bc == 0))
  }

  lemma ThenChained(ab: int, bc: int, ac: int, ab': int, bc': int, ac': int)
    requires Chained(ab, bc, ac) && Chained(ab', bc', ac')
    ensures Chained(Then(ab, ab'), Then(bc, bc'), Then(ac, ac'))
  {}

  lemma {:induction false} Transitive(t: Type, a: Value, b: Value, c: Value)
    requires Shaped(a, t) && Shaped(b, t) && Shaped(c, t)
    ensures Chained(Cmp(t, a, b), Cmp(t, b, c), Cmp(t, a, c))
    decreases t, 0
  {
    match t
    case TString => BytesTransitive(a.s, b.s, c.s);
    case TVector(e) => AllTransitive(e, a.vs, b.vs, c.vs);
    case TMap(k, e) => EntriesTransitive(k, e, a.kvs, b.kvs, c.kvs);
    case _ =>
  }

  lemma {:induction false} BytesTransitive(a: seq<Byte>, b: seq<Byte>, c: seq<Byte>)
    ensures Chained(CmpBytes(a, b), CmpBytes(b, c), CmpBytes(a, c))
  {
    if a != [] && b != [] && c != [] {
      BytesTransitive(a[1..], b[1..], c[1..]);
    }
  }

  lemma {:induction false} AllTransitive(t: Type, a: seq<Value>, b: seq<Value>, c: seq<Value>)
    requires AllShaped(a, t) && AllShaped(b, t) && AllShaped(c, t)
    ensures Chained(CmpAll(t, a, b), CmpAll(t, b, c), CmpAll(t, a, c))
    decreases t, 1, |a|
  {
    if a != [] && b != [] && c != [] {
      Transitive(t, a[0], b[0], c[0]);
      AllTransitive(t, a[1..], b[1..], c[1..]);
      ThenChained(Cmp(t, a[0], b[0]), Cmp(t, b[0], c[0]), Cmp(t, a[0], c[0]),
                  CmpAll(t, a[1..], b[1..]), CmpAll(t, b[1..], c[1..]), CmpAll(t, a[1..], c[1..]));
    }
  }

  lemma {:induction false} EntriesTransitive(k: Type, e: Type, a: seq<Entry>, b: seq<Entry>, c: seq<Entry>)
    requires EntriesShaped(a, k, e) && EntriesShaped(b, k, e) && EntriesShaped(c, k, e)
    ensures Chained(CmpEntries(k, e, a, b), CmpEntries(k, e, b, c), CmpEntries(k, e, a, c))
    decreases TMap(k, e), 0, |a|
  {
    if a != [] && b != [] && c != [] {
      FirstTransitive(k, e, a[0], b[0], c[0]);
      EntriesTransitive(k, e, a[1..], b[1..], c[1..]);
      ThenChained(CmpEntry(k, e, a[0], b[0]), CmpEntry(k, e, b[0], c[0]), CmpEntry(k, e, a[0], c[0]),
                  CmpEntries(k, e, a[1..], b[1..]), CmpEntries(k, e, b[1..], c[1..]), CmpEntries(k, e, a[1..], c[1..]));
    }
  }

  lemma FirstTransitive(k: Type, e: Type, a: Entry, b: Entry, c: Entry)
    requires EntryShaped(a, k, e) && EntryShaped(b, k, e) && EntryShaped(c, k, e)
    ensures Chained(CmpEntry(k, e, a, b), CmpEntry(k, e, b, c), CmpEntry(k, e, a, c))
    decreases TMap(k, e), 0, 0
  {
    Transitive(k, a.key, b.key, c.key);
    Transitive(e, a.val, b.val, c.val);
    ThenChained(Cmp(k, a.key, b.key), Cmp(k, b.key, c.key), Cmp(k, a.key, c.key),
                Cmp(e, a.val, b.val), Cmp(e, b.val, c.val), Cmp(e, a.val, c.val));
  }

  /** Equivalent keys are equal: the order is total on the values of a type. */
  lemma {:induction false} SameKey(t: Type, a: Value, b: Value)
    requires Shaped(a, t) && Shaped(b, t)
    ensures Cmp(t, a, b) == 0 <==> a == b
    decreases t, 0
  {
    match t
    case TString => SameBytes(a.s, b.s);
    case TVector(e) => SameAll(e, a.vs, b.vs);
    case TMap(k, e) => SameEntries(k, e, a.kvs, b.kvs);
    case _ =>
  }

  lemma {:induction false} SameBytes(a: seq<Byte>, b: seq<Byte>)
    ensures CmpBytes(a, b) == 0 <==> a == b
  {
    if a != [] && b != [] {
      SameBytes(a[1..], b[1..]);
      assert a == [a[0]] + a[1..] && b == [b[0]] + b[1..];
    }
  }

  lemma {:induction false} SameAll(t: Type, a: seq<Value>, b: seq<Value>)
    requires AllShaped(a, t) && AllShaped(b, t)
    ensures CmpAll(t, a, b) == 0 <==> a == b
    decreases t, 1, |a|
  {
    if a != [] && b != [] {
      SameKey(t, a[0], b[0]);
      SameAll(t, a[1..], b[1..]);
      assert a == [a[0]] + a[1..] && b == [b[0]] + b[1..];
    }
  }

  lemma {:induction false} SameEntries(k: Type, e: Type, a: seq<Entry>, b: seq<Entry>)
    requires EntriesShaped(a, k, e) && EntriesShaped(b, k, e)
    ensures CmpEntries(k, e, a, b) == 0 <==> a == b
    decreases TMap(k, e), 0, |a|
  {
    if a != [] && b != [] {
      assert EntryShaped(a[0], k, e) && EntryShaped(b[0], k, e);
      SameKey(k, a[0].key, b[0].key);
      SameKey(e, a[0].val, b[0].val);
      SameEntries(k, e, a[1..], b[1..]);
      assert a == [a[0]] + a[1..] && b == [b[0]] + b[1..];
    }
  }

  // ---------- What a std::map makes of a list of entries ----------

  /** `d[a] = b` on a map whose entries ascend. */
  function Put(k: Type, kvs: seq<Entry>, a: Value, b: Value): seq<Entry> {
    if kvs == [] then [Entry(a, b)]
    else
      var c := Cmp(k, a, kvs[0].key);
      if c < 0 then [Entry(a, b)] + kvs
      else if c == 0 then [Entry(kvs[0].key, b)] + kvs[1..]
      else [kvs[0]] + Put(k, kvs[1..], a, b)
  }

  /** The value that a variable of type t holds after it was read as w. */
  ghost function Normal(t: Type, w: Value): Value
    decreases t, 1, 0
  {
    match t
    case TVector(e) => if w.VVector? then VVector(NormalAll(e, w.vs)) else w
    case TMap(k, e) => if w.VMap? then VMap(NormalEntries(k, e, w.kvs, [])) else w
    case _ => w
  }

  ghost function NormalAll(t: Type, ws: seq<Value>): (vs: seq<Value>)
    ensures |vs| == |ws|
    decreases t, 2, |ws|
  {
    if ws == [] then [] else [Normal(t, ws[0])] + NormalAll(t, ws[1..])
  }

  ghost function NormalEntries(k: Type, e: Type, ws: seq<Entry>, acc: seq<Entry>): seq<Entry>
    decreases TMap(k, e), 0, |ws|
  {
    if ws == [] then acc
    else NormalEntries(k, e, ws[1..], Put(k, acc, Normal(k, ws[0].key), Normal(e, ws[0].val)))
  }

  lemma {:induction false} TypedIsShaped(v: Value, t: Type)
    requires HasType(v, t)
    ensures Shaped(v, t)
    decreases v
  {
    match t
    case TVector(e) =>
      forall i | 0 <= i < |v.vs| ensures Shaped(v.vs[i], e) { TypedIsShaped(v.vs[i], e); }
    case TMap(k, e) =>
      forall i | 0 <= i < |v.kvs| ensures EntryShaped(v.kvs[i], k, e) {
        assert EntryHasType(v.kvs[i], k, e);
        TypedIsShaped(v.kvs[i].key, k);
        TypedIsShaped(v.kvs[i].val, e);
      }
    case _ =>
  }

  /** x is below every key. */
  ghost predicate Below(k: Type, x: Value, kvs: seq<Entry>) {
    forall i :: 0 <= i < |kvs| ==> Cmp(k, x, kvs[i].key) < 0
  }

  lemma {:induction false} PutKeepsBelow(k: Type, x: Value, kvs: seq<Entry>, a: Value, b: Value)
    requires Below(k, x, kvs) && Cmp(k, x, a) < 0
    ensures Below(k, x, Put(k, kvs, a, b))
  {
    if kvs != [] {
      PutKeepsBelow(k, x, kvs[1..], a, b);
    }
  }

  lemma {:induction false} PutKeepsTypes(k: Type, e: Type, kvs: seq<Entry>, a: Value, b: Value)
    requires EntriesHaveType(kvs, k, e) && HasType(a, k) && HasType(b, e)
    ensures EntriesHaveType(Put(k, kvs, a, b), k, e) && |Put(k, kvs, a, b)| <= |kvs| + 1
  {
    if kvs != [] {
      assert EntryHasType(kvs[0], k, e);
      PutKeepsTypes(k, e, kvs[1..], a, b);
    }
  }

  lemma ConsAscending(k: Type, kv: Entry, kvs: seq<Entry>)
    requires Below(k, kv.key, kvs) && Ascending(k, kvs)
    ensures Ascending(k, [kv] + kvs)
  {}

  lemma {:induction false} PutKeepsAscending(k: Type, kvs: seq<Entry>, a: Value, b: Value)
    requires Ascending(k, kvs) && Shaped(a, k)
    requires forall i :: 0 <= i < |kvs| ==> Shaped(kvs[i].key, k)
    ensures Ascending(k, Put(k, kvs, a, b))
  {
    if kvs != [] {
      var c, first, rest := Cmp(k, a, kvs[0].key), kvs[0], kvs[1..];
      assert Below(k, first.key, rest) && Ascending(k, rest);
      if c < 0 {
        forall i | 0 <= i < |kvs| ensures Cmp(k, a, kvs[i].key) < 0 {
          Transitive(k, a, first.key, kvs[i].key);
        }
        ConsAscending(k, Entry(a, b), kvs);
      } else if c == 0 {
        ConsAscending(k, Entry(first.key, b), rest);
      } else {
        PutKeepsAscending(k, rest, a, b);
        Antisymmetric(k, a, first.key);
        PutKeepsBelow(k, first.key, rest, a, b);
        ConsAscending(k, first, Put(k, rest, a, b));
      }
    }
  }

  /** Whatever was read, what the variable holds has the type. */
  lemma {:induction false} NormalHasType(t: Type, w: Value)
    requires Shaped(w, t)
    ensures HasType(Normal(t, w), t)
    decreases t, 1, 0
  {
    match t
    case TVector(e) => NormalAllHaveType(e, w.vs);
    case TMap(k, e) => NormalEntriesHaveType(k, e, w.kvs, []);
    case _ =>
  }

  lemma {:induction false} NormalAllHaveType(t: Type, ws: seq<Value>)
    requires AllShaped(ws, t)
    ensures AllHaveType(NormalAll(t, ws), t)
    decreases t, 2, |ws|
  {
    if ws != [] {
      NormalHasType(t, ws[0]);
      NormalAllHaveType(t, ws[1..]);
    }
  }

  lemma {:induction false} NormalEntriesHaveType(k: Type, e: Type, ws: seq<Entry>, acc: seq<Entry>)
    requires EntriesShaped(ws, k, e) && EntriesHaveType(acc, k, e) && Ascending(k, acc)
    ensures var kvs := NormalEntries(k, e, ws, acc);
            EntriesHaveType(kvs, k, e) && Ascending(k, kvs) && |kvs| <= |acc| + |ws|
    decreases TMap(k, e), 0, |ws|
  {
    if ws != [] {
      assert EntryShaped(ws[0], k, e);
      NormalHasType(k, ws[0].key);
      NormalHasType(e, ws[0].val);
      var a, b := Normal(k, ws[0].key), Normal(e, ws[0].val);
      PutKeepsTypes(k, e, acc, a, b);
      KeysShaped(k, e, acc);
      TypedIsShaped(a, k);
      PutKeepsAscending(k, acc, a, b);
      NormalEntriesHaveType(k, e, ws[1..], Put(k, acc, a, b));
    }
  }

  lemma KeysShaped(k: Type, e: Type, kvs: seq<Entry>)
    requires EntriesHaveType(kvs, k, e)
    ensures forall i :: 0 <= i < |kvs| ==> Shaped(kvs[i].key, k)
  {
    forall i | 0 <= i < |kvs| ensures Shaped(kvs[i].key, k) {
      assert EntryHasType(kvs[i], k, e);
      TypedIsShaped(kvs[i].key, k);
    }
  }

  /** A key above all others is put last. */
  lemma {:induction false} PutLast(k: Type, kvs: seq<Entry>, a: Value, b: Value)
    requires forall i :: 0 <= i < |kvs| ==> Cmp(k, kvs[i].key, a) < 0
    ensures Put(k, kvs, a, b) == kvs + [Entry(a, b)]
  {
    if kvs != [] {
      Antisymmetric(k, a, kvs[0].key);
      PutLast(k, kvs[1..], a, b);
    }
  }

  /** What has the type is held as it was read. */
  lemma {:induction false} TypedIsNormal(t: Type, v: Value)
    requires HasType(v, t)
    ensures Normal(t, v) == v
    decreases t, 1, 0
  {
    match t
    case TVector(e) => AllTypedAreNormal(e, v.vs);
    case TMap(k, e) =>
      assert [] + v.kvs == v.kvs;
      EntriesTypedAreNormal(k, e, v.kvs, []);
    case _ =>
  }

  lemma {:induction false} AllTypedAreNormal(t: Type, vs: seq<Value>)
    requires AllHaveType(vs, t)
    ensures NormalAll(t, vs) == vs
    decreases t, 2, |vs|
  {
    if vs != [] {
      TypedIsNormal(t, vs[0]);
      AllTypedAreNormal(t, vs[1..]);
      assert vs == [vs[0]] + vs[1..];
    }
  }

  lemma {:induction false} EntriesTypedAreNormal(k: Type, e: Type, kvs: seq<Entry>, acc: seq<Entry>)
    requires EntriesHaveType(kvs, k, e) && Ascending(k, acc + kvs)
    ensures NormalEntries(k, e, kvs, acc) == acc + kvs
    decreases TMap(k, e), 0, |kvs|
  {
    if kvs == [] {
      assert acc + kvs == acc;
    } else {
      assert EntryHasType(kvs[0], k, e);
      TypedIsNormal(k, kvs[0].key);
      TypedIsNormal(e, kvs[0].val);
      NextIsLast(k, acc, kvs);
      EntriesTypedAreNormal(k, e, kvs[1..], acc + [kvs[0]]);
    }
  }

  lemma NextIsLast(k: Type, acc: seq<Entry>, kvs: seq<Entry>)
    requires kvs != [] && Ascending(k, acc + kvs)
    ensures acc + [kvs[0]] + kvs[1..] == acc + kvs
    ensures Put(k, acc, kvs[0].key, kvs[0].val) == acc + [kvs[0]]
  {
    forall i | 0 <= i < |acc| ensures Cmp(k, acc[i].key, kvs[0].key) < 0 {
      assert (acc + kvs)[i] == acc[i] && (acc + kvs)[|acc|] == kvs[0];
    }
    PutLast(k, acc, kvs[0].key, kvs[0].val);
  }

  /** Values without maps are held as they were read. */
  lemma {:induction false} NoMapIsTyped(t: Type, w: Value)
    requires NoMap(t) && Shaped(w, t)
    ensures HasType(w, t)
    decreases t
  {
    match t
    case TVector(e) =>
      forall i | 0 <= i < |w.vs| ensures HasType(w.vs[i], e) { NoMapIsTyped(e, w.vs[i]); }
    case _ =>
  }

  // ---------- The order and the maps, by what they mean ----------

  /** The bit pattern stands for the number that is congruent to it and in range. */
  lemma NumberExactly(n: nat, size: nat, signed: bool)
    requires n < size && size % 2 == 0
    ensures !signed ==> Number(n, size, signed) == n
    ensures signed ==> 0 <= 2 * Number(n, size, signed) + size < 2 * size
    ensures Number(n, size, signed) == n || Number(n, size, signed) == n - size
  {}

  /** Integers compare as numbers. */
  lemma IntegersInOrder(t: Type, a: Value, b: Value)
    requires Shaped(a, t) && Shaped(b, t)
    ensures t.TByte? ==> (Cmp(t, a, b) < 0 <==> Number(a.b, TWO8, t.signed) < Number(b.b, TWO8, t.signed))
    ensures t.TShort? ==> (Cmp(t, a, b) < 0 <==> Number(a.n, TWO16, t.signed) < Number(b.n, TWO16, t.signed))
    ensures t.TInt? ==> (Cmp(t, a, b) < 0 <==> Number(a.n, TWO32, t.signed) < Number(b.n, TWO32, t.signed))
    ensures t.TLong? ==> (Cmp(t, a, b) < 0 <==> Number(a.n, TWO64, t.signed) < Number(b.n, TWO64, t.signed))
  {}

  /** Up to k the elements are equivalent by f; then a is at its end and b is not, or
      a's element is the smaller. */
  ghost predicate SmallerAt<A>(f: (A, A) -> int, a: seq<A>, b: seq<A>, k: nat) {
    && k <= |a| && k < |b| && (forall i :: 0 <= i < k ==> f(a[i], b[i]) == 0)
    && (k < |a| ==> f(a[k], b[k]) < 0)
  }

  ghost predicate Smaller<A>(f: (A, A) -> int, a: seq<A>, b: seq<A>) {
    exists k: nat :: SmallerAt(f, a, b, k)
  }

  lemma SmallerByFirst<A>(f: (A, A) -> int, a: seq<A>, b: seq<A>)
    requires a == [] || b == [] || f(a[0], b[0]) != 0
    ensures Smaller(f, a, b) <==> b != [] && (a == [] || f(a[0], b[0]) < 0)
  {
    if b != [] && (a == [] || f(a[0], b[0]) < 0) {
      assert SmallerAt(f, a, b, 0);
    }
  }

  /** Equivalent first elements do not count. */
  lemma SmallerByRest<A>(f: (A, A) -> int, a: seq<A>, b: seq<A>)
    requires a != [] && b != [] && f(a[0], b[0]) == 0
    ensures Smaller(f, a, b) <==> Smaller(f, a[1..], b[1..])
  {
    if k: nat :| SmallerAt(f, a, b, k) {
      assert SmallerAt(f, a[1..], b[1..], k - 1);
    }
    if k: nat :| SmallerAt(f, a[1..], b[1..], k) {
      assert forall i :: 1 <= i < k + 1 ==> a[i] == a[1..][i - 1] && b[i] == b[1..][i - 1];
      assert SmallerAt(f, a, b, k + 1);
    }
  }

  /** Bytes in the order of the numbers they are. */
  ghost function ByteOrder(): (Byte, Byte) -> int {
    (x, y) => var m: int, n: int := x, y; m - n
  }

  ghost function ElementOrder(t: Type): (Value, Value) -> int {
    (x, y) => Cmp(t, x, y)
  }

  ghost function EntryOrder(k: Type, e: Type): (Entry, Entry) -> int {
    (x, y) => CmpEntry(k, e, x, y)
  }

  /** Strings compare by their first difference, as unsigned bytes. */
  lemma {:induction false} BytesInOrder(a: seq<Byte>, b: seq<Byte>)
    ensures CmpBytes(a, b) < 0 <==> Smaller(ByteOrder(), a, b)
  {
    if a == [] || b == [] || a[0] != b[0] {
      SmallerByFirst(ByteOrder(), a, b);
    } else {
      SmallerByRest(ByteOrder(), a, b);
      BytesInOrder(a[1..], b[1..]);
    }
  }

  /** Vectors compare by their first difference. */
  lemma {:induction false} VectorsInOrder(t: Type, a: seq<Value>, b: seq<Value>)
    ensures CmpAll(t, a, b) < 0 <==> Smaller(ElementOrder(t), a, b)
    decreases |a|
  {
    if a == [] || b == [] || Cmp(t, a[0], b[0]) != 0 {
      SmallerByFirst(ElementOrder(t), a, b);
    } else {
      SmallerByRest(ElementOrder(t), a, b);
      VectorsInOrder(t, a[1..], b[1..]);
    }
  }

  /** Entries compare by key before value. */
  lemma EntriesInOrder(k: Type, e: Type, x: Entry, y: Entry)
    ensures CmpEntry(k, e, x, y) < 0 <==>
              Cmp(k, x.key, y.key) < 0 || (Cmp(k, x.key, y.key) == 0 && Cmp(e, x.val, y.val) < 0)
  {}

  /** Maps compare by their first different entry. */
  lemma {:induction false} MapsInOrder(k: Type, e: Type, a: seq<Entry>, b: seq<Entry>)
    ensures CmpEntries(k, e, a, b) < 0 <==> Smaller(EntryOrder(k, e), a, b)
    decreases |a|
  {
    if a == [] || b == [] || CmpEntry(k, e, a[0], b[0]) != 0 {
      SmallerByFirst(EntryOrder(k, e), a, b);
    } else {
      SmallerByRest(EntryOrder(k, e), a, b);
      MapsInOrder(k, e, a[1..], b[1..]);
    }
  }

  /** So strings, vectors and maps compare as sequences, by their first difference. */
  lemma KeysInOrder(t: Type, a: Value, b: Value)
    requires Shaped(a, t) && Shaped(b, t)
    ensures t.TString? ==> (Cmp(t, a, b) < 0 <==> Smaller(ByteOrder(), a.s, b.s))
    ensures t.TVector? ==> (Cmp(t, a, b) < 0 <==> Smaller(ElementOrder(t.elem), a.vs, b.vs))
    ensures t.TMap? ==> (Cmp(t, a, b) < 0 <==> Smaller(EntryOrder(t.key, t.val), a.kvs, b.kvs))
  {
    match t
    case TString => BytesInOrder(a.s, b.s);
    case TVector(e) => VectorsInOrder(e, a.vs, b.vs);
    case TMap(k, e) => MapsInOrder(k, e, a.kvs, b.kvs);
    case _ =>
  }

  /** The value stored under key x. */
  ghost function Find(kvs: seq<Entry>, x: Value): Option<Value> {
    if kvs == [] then None else if kvs[0].key == x then Some(kvs[0].val) else Find(kvs[1..], x)
  }

  /** `d[a] = b` changes what is stored under a, and nothing else. */
  lemma {:induction false} PutThenFind(k: Type, kvs: seq<Entry>, a: Value, b: Value, x: Value)
    requires Shaped(a, k) && forall i :: 0 <= i < |kvs| ==> Shaped(kvs[i].key, k)
    ensures Find(Put(k, kvs, a, b), x) == if x == a then Some(b) else Find(kvs, x)
  {
    if kvs != [] {
      SameKey(k, a, kvs[0].key);
      PutThenFind(k, kvs[1..], a, b, x);
    }
  }

  /** The value that comes last with key x. */
  ghost function LastValue(k: Type, e: Type, ws: seq<Entry>, x: Value): Option<Value> {
    if ws == [] then None
    else
      var later := LastValue(k, e, ws[1..], x);
      if later.Some? then later
      else if Normal(k, ws[0].key) == x then Some(Normal(e, ws[0].val))
      else None
  }

  lemma {:induction false} EntriesHoldLast(k: Type, e: Type, ws: seq<Entry>, acc: seq<Entry>, x: Value)
    requires EntriesShaped(ws, k, e) && EntriesHaveType(acc, k, e)
    ensures var last := LastValue(k, e, ws, x);
            Find(NormalEntries(k, e, ws, acc), x) == if last.Some? then last else Find(acc, x)
    decreases |ws|
  {
    if ws != [] {
      assert EntryShaped(ws[0], k, e);
      NormalHasType(k, ws[0].key);
      NormalHasType(e, ws[0].val);
      var a, b := Normal(k, ws[0].key), Normal(e, ws[0].val);
      TypedIsShaped(a, k);
      KeysShaped(k, e, acc);
      PutThenFind(k, acc, a, b, x);
      PutKeepsTypes(k, e, acc, a, b);
      EntriesHoldLast(k, e, ws[1..], Put(k, acc, a, b), x);
    }
  }

  /** A map that was read holds, under each key, the value that came last with it. */
  lemma MapHoldsLastValues(k: Type, e: Type, ws: seq<Entry>, x: Value)
    requires EntriesShaped(ws, k, e)
    ensures Normal(TMap(k, e), VMap(ws)).VMap?
    ensures Find(Normal(TMap(k, e), VMap(ws)).kvs, x) == LastValue(k, e, ws, x)
  {
    EntriesHoldLast(k, e, ws, [], x);
  }
}
