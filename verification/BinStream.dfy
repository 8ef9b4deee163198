/**
 * Serialization into a stream of bytes, base/serialization.hpp and base/serialization.cpp: a value of any
 * type built from scalars, strings, vectors, pairs, maps, pointers and streams is written and read back.
 */
module BinStream {
  import opened Basics

  newtype byte = x: int | 0 <= x < 256

  /** A C++ type, as far as the operators tell types apart; a scalar is its width in bytes. */
  datatype Type =
    | Scalar(width: nat)
    | Str
    | Bools
    | Vector(elem: Type)
    | Pair(first: Type, second: Type)
    | Map(key: Type, val: Type)
    | Pointer(target: Type)
    | Nested

  /** A value; a map is its pairs in the order of iteration, a nested stream the bytes it has left. */
  datatype Value =
    | ScalarValue(raw: seq<byte>)
    | StrValue(chars: seq<byte>)
    | BoolsValue(bits: seq<bool>)
    | VectorValue(elems: seq<Value>)
    | PairValue(fst: Value, snd: Value)
    | MapValue(entries: seq<Value>)
    | PointerValue(pointee: Value)
    | NestedValue(rest: seq<byte>)

  /** The loops over elements count with an int. */
  const INT_MAX: nat := 0x7fff_ffff
  const SIZE_WIDTH: nat := 8

  function TypeSize(t: Type): nat
  {
    match t
    case Vector(e) => 1 + TypeSize(e)
    case Pair(a, b) => 1 + TypeSize(a) + TypeSize(b)
    case Map(k, v) => 2 + TypeSize(k) + TypeSize(v)
    case Pointer(p) => 1 + TypeSize(p)
    case _ => 0
  }

  ghost predicate DistinctKeys(entries: seq<Value>) {
    && (forall i :: 0 <= i < |entries| ==> entries[i].PairValue?)
    && (forall i, j :: 0 <= i < j < |entries| ==> entries[i].fst != entries[j].fst)
  }

  ghost predicate HasType(v: Value, t: Type)
    decreases v
  {
    match (v, t)
    case (ScalarValue(raw), Scalar(w)) => |raw| == w
    case (StrValue(chars), Str) => |chars| < Power(SIZE_WIDTH)
    case (BoolsValue(bits), Bools) => |bits| <= INT_MAX
    case (VectorValue(elems), Vector(e)) => |elems| <= INT_MAX && forall i :: 0 <= i < |elems| ==> HasType(elems[i], e)
    case (PairValue(a, b), Pair(ta, tb)) => HasType(a, ta) && HasType(b, tb)
    case (MapValue(entries), Map(k, e)) =>
      |entries| <= INT_MAX && DistinctKeys(entries) && forall i :: 0 <= i < |entries| ==>
          HasType(entries[i], Pair(k, e))
    case (PointerValue(p), Pointer(e)) => HasType(p, e)
    case (NestedValue(rest), Nested) => |rest| < Power(SIZE_WIDTH)
    case _ => false
  }

  // ---------------------------------------------------------------- numbers as bytes

  function Power(k: nat): nat
  {
    if k == 0 then 1 else 256 * Power(k - 1)
  }

  /** The k low bytes of n, the lowest first. */
  function ToBytes(n: nat, k: nat): (s: seq<byte>)
    ensures |s| == k
  {
    if k == 0 then [] else [(n % 256) as byte] + ToBytes(n / 256, k - 1)
  }

  function FromBytes(s: seq<byte>): nat
  {
    if s == [] then 0 else s[0] as nat + 256 * FromBytes(s[1..])
  }

  lemma {:induction false} BytesRoundTrip(n: nat, k: nat)
    requires n < Power(k)
    ensures FromBytes(ToBytes(n, k)) == n
  {
    if k == 0 {
    } else {
      BytesRoundTrip(n / 256, k - 1);
      assert ToBytes(n, k)[1..] == ToBytes(n / 256, k - 1);
    }
  }

  function LengthBytes(n: nat): (s: seq<byte>)
    ensures |s| == SIZE_WIDTH
  {
    ToBytes(n, SIZE_WIDTH)
  }

  lemma LengthFits(n: nat)
    requires n < 0x1_0000_0000_0000_0000
    ensures n < Power(SIZE_WIDTH)
  {
    assert Power(4) == 0x1_0000_0000;
    assert Power(8) == 256 * (256 * (256 * (256 * Power(4))));
  }

  lemma IntFits(n: nat)
    requires n <= INT_MAX
    ensures n < Power(SIZE_WIDTH)
  {
    LengthFits(n);
  }

  // ---------------------------------------------------------------- what is written

  function BoolBytes(bits: seq<bool>): (s: seq<byte>)
    ensures |s| == |bits|
  {
    seq(|bits|, i requires 0 <= i < |bits| => if bits[i] then 1 as byte else 0 as byte)
  }

  function Encode(v: Value): seq<byte>
    decreases v
  {
    match v
    case ScalarValue(raw) => raw
    case StrValue(chars) => LengthBytes(|chars|) + chars
    case BoolsValue(bits) => LengthBytes(|bits|) + BoolBytes(bits)
    case VectorValue(elems) => LengthBytes(|elems|) + EncodeAll(elems)
    case PairValue(a, b) => Encode(a) + Encode(b)
    case MapValue(entries) => LengthBytes(|entries|) + EncodeAll(entries)
    case PointerValue(p) => Encode(p)
    case NestedValue(rest) => LengthBytes(|rest|) + rest
  }

  function EncodeAll(vs: seq<Value>): seq<byte>
    decreases vs
  {
    if vs == [] then [] else Encode(vs[0]) + EncodeAll(vs[1..])
  }

  // ---------------------------------------------------------------- what is read

  /** The next n bytes from position at; None where the source would read behind the buffer. */
  function Take(buf: seq<byte>, at: nat, n: nat): Option<seq<byte>>
  {
    if at + n <= |buf| then Some(buf[at..at + n]) else None
  }

  /** std::map::insert: an element whose key is there already changes nothing. */
  function Insert(entries: seq<Value>, e: Value): seq<Value>
  {
    if exists i :: 0 <= i < |entries| && e.PairValue? && entries[i].PairValue? && entries[i].fst == e.fst then entries
    else entries + [e]
  }

  function InsertAll(entries: seq<Value>): seq<Value>
  {
    if entries == [] then [] else Insert(InsertAll(entries[..|entries| - 1]), entries[|entries| - 1])
  }

  ghost predicate HasKey(entries: seq<Value>, key: Value) {
    exists i :: 0 <= i < |entries| && entries[i].PairValue? && entries[i].fst == key
  }

  /** e is the first of these entries with its key. */
  ghost predicate IsFirst(entries: seq<Value>, e: Value)
    requires e.PairValue?
  {
    exists i: nat :: i < |entries| && entries[i] == e && !HasKey(entries[..i], e.fst)
  }

  lemma OneMoreKey(front: seq<Value>, last: Value, key: Value)
    requires last.PairValue?
    ensures HasKey(front + [last], key) <==> HasKey(front, key) || last.fst == key
  {
    var l := front + [last];
    assert l[|front|] == last;
    assert forall i :: 0 <= i < |front| ==> l[i] == front[i];
  }

  lemma OneMoreFirst(front: seq<Value>, last: Value, e: Value)
    requires last.PairValue? && e.PairValue?
    ensures IsFirst(front + [last], e) <==> IsFirst(front, e) || (e == last && !HasKey(front, e.fst))
  {
    var l := front + [last];
    assert l[|front|] == last && l[..|front|] == front;
    assert forall i: nat :: i < |front| ==> l[i] == front[i] && l[..i] == front[..i];
  }

  /** Inserting all entries keeps of those with one key the first, and no other. */
  lemma {:induction false} InsertAllKeepsFirst(entries: seq<Value>)
    requires forall i :: 0 <= i < |entries| ==> entries[i].PairValue?
    ensures DistinctKeys(InsertAll(entries))
    ensures forall e: Value | e.PairValue? :: e in InsertAll(entries) <==> IsFirst(entries, e)
    ensures forall key :: HasKey(InsertAll(entries), key) <==> HasKey(entries, key)
  {
    if entries == [] {
    } else {
      var n := |entries| - 1;
      var front, last := entries[..n], entries[n];
      InsertAllKeepsFirst(front);
      var kept := InsertAll(front);
      assert entries == front + [last];
      assert InsertAll(entries) == if HasKey(kept, last.fst) then kept else kept + [last];
      forall key ensures HasKey(InsertAll(entries), key) <==> HasKey(entries, key) {
        OneMoreKey(front, last, key);
        OneMoreKey(kept, last, key);
      }
      forall e: Value | e.PairValue? ensures e in InsertAll(entries) <==> IsFirst(entries, e) {
        OneMoreFirst(front, last, e);
      }
    }
  }

  /** A value read, and where the cursor is then. */
  datatype Read<+T> = Read(got: T, at: nat)

  function DecodeLength(buf: seq<byte>, at: nat): Option<Read<nat>>
  {
    match Take(buf, at, SIZE_WIDTH)
    case Some(s) => Some(Read(FromBytes(s), at + SIZE_WIDTH))
    case None => None
  }

  /** A length, and that many bytes. */
  function DecodeRaw(buf: seq<byte>, at: nat): Option<Read<seq<byte>>>
  {
    match DecodeLength(buf, at)
    case Some(len) =>
      (match Take(buf, len.at, len.got)
       case Some(s) => Some(Read(s, len.at + len.got))
       case None => None)
    case None => None
  }

  function Bits(s: seq<byte>): (r: seq<bool>)
    ensures |r| == |s|
  {
    seq(|s|, i requires 0 <= i < |s| => s[i] != 0)
  }

  function Decode(t: Type, buf: seq<byte>, at: nat): Option<Read<Value>>
    decreases TypeSize(t), 0
  {
    match t
    case Scalar(w) =>
      (match Take(buf, at, w)
       case Some(s) => Some(Read(ScalarValue(s), at + w))
       case None => None)
    case Str =>
      (match DecodeRaw(buf, at)
       case Some(r) => Some(Read(StrValue(r.got), r.at))
       case None => None)
    case Bools =>
      (match DecodeRaw(buf, at)
       case Some(r) => Some(Read(BoolsValue(Bits(r.got)), r.at))
       case None => None)
    case Nested =>
      (match DecodeRaw(buf, at)
       case Some(r) => Some(Read(NestedValue(r.got), r.at))
       case None => None)
    case Vector(e) =>
      (match DecodeLength(buf, at)
       case Some(len) =>
         (match DecodeAll(e, buf, len.at, len.got)
          case Some(r) => Some(Read(VectorValue(r.got), r.at))
          case None => None)
       case None => None)
    case Map(k, e) =>
      (match DecodeLength(buf, at)
       case Some(len) =>
         (match DecodeAll(Pair(k, e), buf, len.at, len.got)
          case Some(r) => Some(Read(MapValue(InsertAll(r.got)), r.at))
          case None => None)
       case None => None)
    case Pair(ta, tb) =>
      (match Decode(ta, buf, at)
       case Some(a) =>
         (match Decode(tb, buf, a.at)
          case Some(b) => Some(Read(PairValue(a.got, b.got), b.at))
          case None => None)
       case None => None)
    case Pointer(e) =>
      (match Decode(e, buf, at)
       case Some(r) => Some(Read(PointerValue(r.got), r.at))
       case None => None)
  }

  /** The next n values of type t. */
  function DecodeAll(t: Type, buf: seq<byte>, at: nat, n: nat): Option<Read<seq<Value>>>
    decreases TypeSize(t), n + 1
  {
    if n == 0 then Some(Read([], at))
    else
      match Decode(t, buf, at)
      case Some(r) =>
        (match DecodeAll(t, buf, r.at, n - 1)
         case Some(rest) => Some(Read([r.got] + rest.got, rest.at))
         case None => None)
      case None => None
  }

  // ---------------------------------------------------------------- the round trip

  /** At this position of the buffer these bytes come next. */
  ghost predicate Follows(buf: seq<byte>, at: nat, s: seq<byte>) {
    at + |s| <= |buf| && buf[at..at + |s|] == s
  }

  lemma FollowsParts(buf: seq<byte>, at: nat, s: seq<byte>, t: seq<byte>)
    requires Follows(buf, at, s + t)
    ensures Follows(buf, at, s) && Follows(buf, at + |s|, t)
  {
    var whole := buf[at..at + |s + t|];
    assert whole[..|s|] == s && whole[|s|..] == t;
    assert buf[at..at + |s|] == whole[..|s|];
    assert buf[at + |s|..at + |s| + |t|] == whole[|s|..];
  }

  // ---------------------------------------------------------------- where the bytes are

  /** Eight bytes, the lowest first, hold this length, as long as it is one of 64 bits. */
  ghost predicate StartsWithLength(s: seq<byte>, n: nat) {
    && |s| >= 8
    && (n < 0x1_0000_0000_0000_0000 ==>
         n == s[0] as nat + 0x100 * s[1] as nat + 0x1_0000 * s[2] as nat + 0x100_0000 * s[3] as nat
              + 0x1_0000_0000 * s[4] as nat + 0x100_0000_0000 * s[5] as nat + 0x1_0000_0000_0000 * s[6] as nat
              + 0x100_0000_0000_0000 * s[7] as nat)
  }

  /** From this position on, up to the end, the values are one behind the other. */
  ghost predicate OneBehindTheOther(s: seq<byte>, at: nat, vs: seq<Value>)
    decreases |vs|
  {
    if vs == [] then at == |s|
    else Follows(s, at, Encode(vs[0])) && OneBehindTheOther(s, at + |Encode(vs[0])|, vs[1..])
  }

  lemma {:induction false} AllInOrder(before: seq<byte>, vs: seq<Value>)
    ensures OneBehindTheOther(before + EncodeAll(vs), |before|, vs)
    decreases |vs|
  {
    if vs == [] {
    } else {
      hide Encode;
      AllInOrder(before + Encode(vs[0]), vs[1..]);
      Regroup(before, Encode(vs[0]), EncodeAll(vs[1..]));
    }
  }

  lemma StartsWithOwnLength(n: nat, rest: seq<byte>)
    ensures StartsWithLength(LengthBytes(n) + rest, n)
  {
    var s := LengthBytes(n);
    if n < 0x1_0000_0000_0000_0000 {
      LengthFits(n);
      BytesRoundTrip(n, SIZE_WIDTH);
      ValueOfFour(s[4..]);
      ValueOfFour(s);
      assert s[4..][4..] == [] && (s + rest)[..8] == s;
    }
  }

  lemma ValueOfFour(s: seq<byte>)
    requires |s| >= 4
    ensures FromBytes(s) == s[0] as nat + 0x100 * s[1] as nat + 0x1_0000 * s[2] as nat + 0x100_0000 * s[3] as nat
                            + 0x1_0000_0000 * FromBytes(s[4..])
  {
    assert FromBytes(s) == s[0] as nat + 256 * FromBytes(s[1..]);
    assert FromBytes(s[1..]) == s[1] as nat + 256 * FromBytes(s[1..][1..]) && s[1..][1..] == s[2..];
    assert FromBytes(s[2..]) == s[2] as nat + 256 * FromBytes(s[2..][1..]) && s[2..][1..] == s[3..];
    assert FromBytes(s[3..]) == s[3] as nat + 256 * FromBytes(s[3..][1..]) && s[3..][1..] == s[4..];
  }

  /**
   * The bytes of every value: a length takes eight, a bool one, the parts of a value come one behind the
   * other, and a pointer is what it points to.
   */
  lemma Layout(v: Value)
    ensures match v
            case ScalarValue(raw) => Encode(v) == raw
            case StrValue(chars) =>
              |Encode(v)| == 8 + |chars| && StartsWithLength(Encode(v), |chars|) && Encode(v)[8..] == chars
            case BoolsValue(bits) =>
              && |Encode(v)| == 8 + |bits| && StartsWithLength(Encode(v), |bits|)
              && forall i :: 0 <= i < |bits| ==> Encode(v)[8 + i] as int == if bits[i] then 1 else 0
            case VectorValue(elems) =>
              StartsWithLength(Encode(v), |elems|) && OneBehindTheOther(Encode(v), 8, elems)
            case PairValue(a, b) => OneBehindTheOther(Encode(v), 0, [a, b])
            case MapValue(entries) =>
              StartsWithLength(Encode(v), |entries|) && OneBehindTheOther(Encode(v), 8, entries)
            case PointerValue(p) => Encode(v) == Encode(p)
            case NestedValue(rest) =>
              |Encode(v)| == 8 + |rest| && StartsWithLength(Encode(v), |rest|) && Encode(v)[8..] == rest
  {
    match v
    case StrValue(chars) => StartsWithOwnLength(|chars|, chars);
    case BoolsValue(bits) => StartsWithOwnLength(|bits|, BoolBytes(bits));
    case NestedValue(rest) => StartsWithOwnLength(|rest|, rest);
    case VectorValue(elems) =>
      StartsWithOwnLength(|elems|, EncodeAll(elems));
      AllInOrder(LengthBytes(|elems|), elems);
    case MapValue(entries) =>
      StartsWithOwnLength(|entries|, EncodeAll(entries));
      AllInOrder(LengthBytes(|entries|), entries);
    case PairValue(a, b) =>
      assert OneBehindTheOther(Encode(v), |Encode(a)| + |Encode(b)|, []);
      assert OneBehindTheOther(Encode(v), |Encode(a)|, [b]);
      assert [a, b][1..] == [b];
    case _ =>
  }

  // ---------------------------------------------------------------- reading back

  lemma LengthBack(buf: seq<byte>, at: nat, n: nat)
    requires n < Power(SIZE_WIDTH) && Follows(buf, at, LengthBytes(n))
    ensures DecodeLength(buf, at) == Some(Read(n, at + SIZE_WIDTH))
  {
    BytesRoundTrip(n, SIZE_WIDTH);
  }

  lemma RawBack(buf: seq<byte>, at: nat, s: seq<byte>)
    requires |s| < Power(SIZE_WIDTH) && Follows(buf, at, LengthBytes(|s|) + s)
    ensures DecodeRaw(buf, at) == Some(Read(s, at + SIZE_WIDTH + |s|))
  {
    FollowsParts(buf, at, LengthBytes(|s|), s);
    LengthBack(buf, at, |s|);
  }

  lemma {:induction false} InsertAllDistinct(entries: seq<Value>)
    requires DistinctKeys(entries)
    ensures InsertAll(entries) == entries
  {
    if entries == [] {
    } else {
      var n := |entries| - 1;
      InsertAllDistinct(entries[..n]);
      assert entries == entries[..n] + [entries[n]];
    }
  }

  lemma BoolsBack(buf: seq<byte>, at: nat, bits: seq<bool>)
    requires |bits| <= INT_MAX && Follows(buf, at, LengthBytes(|bits|) + BoolBytes(bits))
    ensures Decode(Bools, buf, at) == Some(Read(BoolsValue(bits), at + SIZE_WIDTH + |bits|))
  {
    IntFits(|bits|);
    RawBack(buf, at, BoolBytes(bits));
    assert Bits(BoolBytes(bits)) == bits;
  }

  /** Values without parts. */
  lemma PlainRoundTrip(v: Value, t: Type, buf: seq<byte>, at: nat)
    requires HasType(v, t) && Follows(buf, at, Encode(v))
    requires v.ScalarValue? || v.StrValue? || v.BoolsValue? || v.NestedValue?
    ensures Decode(t, buf, at) == Some(Read(v, at + |Encode(v)|))
  {
    match v
    case ScalarValue(_) =>
    case StrValue(chars) => RawBack(buf, at, chars);
    case NestedValue(rest) => RawBack(buf, at, rest);
    case BoolsValue(bits) => BoolsBack(buf, at, bits);
  }

  /** A length and that many elements. */
  lemma CountedBack(buf: seq<byte>, at: nat, vs: seq<Value>)
    requires |vs| <= INT_MAX && Follows(buf, at, LengthBytes(|vs|) + EncodeAll(vs))
    ensures DecodeLength(buf, at) == Some(Read(|vs|, at + SIZE_WIDTH))
    ensures Follows(buf, at + SIZE_WIDTH, EncodeAll(vs))
  {
    IntFits(|vs|);
    FollowsParts(buf, at, LengthBytes(|vs|), EncodeAll(vs));
    LengthBack(buf, at, |vs|);
  }

  lemma VectorBack(elems: seq<Value>, e: Type, buf: seq<byte>, at: nat, end: nat)
    requires DecodeLength(buf, at) == Some(Read(|elems|, at + SIZE_WIDTH))
    requires DecodeAll(e, buf, at + SIZE_WIDTH, |elems|) == Some(Read(elems, end))
    ensures Decode(Vector(e), buf, at) == Some(Read(VectorValue(elems), end))
  {
  }

  lemma MapBack(read: seq<Value>, k: Type, e: Type, buf: seq<byte>, at: nat, end: nat)
    ensures
      && DecodeLength(buf, at) == Some(Read(|read|, at + SIZE_WIDTH))
      && DecodeAll(Pair(k, e), buf, at + SIZE_WIDTH, |read|) == Some(Read(read, end))
      ==> Decode(Map(k, e), buf, at) == Some(Read(MapValue(InsertAll(read)), end))
  {
  }

  lemma PairBack(a: Value, b: Value, ta: Type, tb: Type, buf: seq<byte>, at: nat, middle: nat, end: nat)
    requires Decode(ta, buf, at) == Some(Read(a, middle))
    requires Decode(tb, buf, middle) == Some(Read(b, end))
    ensures Decode(Pair(ta, tb), buf, at) == Some(Read(PairValue(a, b), end))
  {
  }

  lemma PointerBack(p: Value, t: Type, buf: seq<byte>, at: nat, end: nat)
    requires Decode(t, buf, at) == Some(Read(p, end))
    ensures Decode(Pointer(t), buf, at) == Some(Read(PointerValue(p), end))
  {
  }

  ghost predicate AllHaveType(vs: seq<Value>, t: Type) {
    forall i :: 0 <= i < |vs| ==> HasType(vs[i], t)
  }

  lemma {:induction false} VectorRoundTrip(elems: seq<Value>, e: Type, buf: seq<byte>, at: nat)
    requires |elems| <= INT_MAX && AllHaveType(elems, e) && Follows(buf, at, LengthBytes(|elems|) + EncodeAll(elems))
    ensures Decode(Vector(e), buf, at) == Some(Read(VectorValue(elems), at + SIZE_WIDTH + |EncodeAll(elems)|))
    decreases elems, 1
  {
    CountedBack(buf, at, elems);
    AllRoundTrip(elems, e, buf, at + SIZE_WIDTH);
    VectorBack(elems, e, buf, at, at + SIZE_WIDTH + |EncodeAll(elems)|);
  }

  lemma {:induction false} MapRoundTrip(entries: seq<Value>, k: Type, e: Type, buf: seq<byte>, at: nat)
    requires |entries| <= INT_MAX && DistinctKeys(entries) && AllHaveType(entries, Pair(k, e))
    requires Follows(buf, at, LengthBytes(|entries|) + EncodeAll(entries))
    ensures Decode(Map(k, e), buf, at) == Some(Read(MapValue(entries), at + SIZE_WIDTH + |EncodeAll(entries)|))
    decreases entries, 1
  {
    hide Decode, DecodeAll, EncodeAll, InsertAll;
    CountedBack(buf, at, entries);
    AllRoundTrip(entries, Pair(k, e), buf, at + SIZE_WIDTH);
    InsertAllDistinct(entries);
    MapBack(entries, k, e, buf, at, at + SIZE_WIDTH + |EncodeAll(entries)|);
  }

  lemma {:induction false} PairRoundTrip(a: Value, b: Value, ta: Type, tb: Type, buf: seq<byte>, at: nat)
    requires HasType(a, ta) && HasType(b, tb) && Follows(buf, at, Encode(a) + Encode(b))
    ensures Decode(Pair(ta, tb), buf, at) == Some(Read(PairValue(a, b), at + |Encode(a)| + |Encode(b)|))
    decreases PairValue(a, b), 0
  {
    hide Decode, Encode, HasType;
    FollowsParts(buf, at, Encode(a), Encode(b));
    RoundTrip(a, ta, buf, at);
    RoundTrip(b, tb, buf, at + |Encode(a)|);
    PairBack(a, b, ta, tb, buf, at, at + |Encode(a)|, at + |Encode(a)| + |Encode(b)|);
  }

  /**
   * The round trip, wherever the bytes of a value are in a buffer and whatever follows them: reading gives
   * the value, and leaves the cursor right behind them.
   */
  lemma {:induction false} RoundTrip(v: Value, t: Type, buf: seq<byte>, at: nat)
    requires HasType(v, t) && Follows(buf, at, Encode(v))
    ensures Decode(t, buf, at) == Some(Read(v, at + |Encode(v)|))
    decreases v, 1
  {
    hide Decode, DecodeAll, EncodeAll, LengthBytes;
    match v
    case VectorValue(elems) => VectorRoundTrip(elems, t.elem, buf, at);
    case MapValue(entries) => MapRoundTrip(entries, t.key, t.val, buf, at);
    case PairValue(a, b) => PairRoundTrip(a, b, t.first, t.second, buf, at);
    case PointerValue(p) =>
      RoundTrip(p, t.target, buf, at);
      PointerBack(p, t.target, buf, at, at + |Encode(p)|);
    case _ => PlainRoundTrip(v, t, buf, at);
  }

  lemma {:induction false} AllRoundTrip(vs: seq<Value>, t: Type, buf: seq<byte>, at: nat)
    requires AllHaveType(vs, t) && Follows(buf, at, EncodeAll(vs))
    ensures DecodeAll(t, buf, at, |vs|) == Some(Read(vs, at + |EncodeAll(vs)|))
    decreases vs, 0
  {
    hide Decode, Encode, HasType;
    if vs == [] {
    } else {
      FollowsParts(buf, at, Encode(vs[0]), EncodeAll(vs[1..]));
      RoundTrip(vs[0], t, buf, at);
      AllRoundTrip(vs[1..], t, buf, at + |Encode(vs[0])|);
      assert vs == [vs[0]] + vs[1..];
    }
  }

  // ---------------------------------------------------------------- the stream

  class Stream {
    var buffer: seq<byte>
    var front: nat

    constructor ()
      ensures buffer == [] && front == 0
    {
      buffer, front := [], 0;
    }

    function Remaining(): seq<byte>
      requires front <= |buffer|
      reads this
    {
      buffer[front..]
    }

    method Clear()
      modifies this
      ensures buffer == [] && front == 0
    {
      buffer, front := [], 0;
    }

    method PushBackBytes(src: seq<byte>)
      modifies this`buffer
      ensures buffer == old(buffer) + src
    {
      buffer := buffer + src;
    }

    /** ok is false when the bytes would lie behind the buffer, which the source leaves undefined. */
    method PopFrontBytes(n: nat) returns (ok: bool, s: seq<byte>)
      modifies this`front
      ensures Take(buffer, old(front), n) == if ok then Some(s) else None
      ensures front == if ok then old(front) + n else old(front)
    {
      ok := front + n <= |buffer|;
      s := [];
      if ok {
        s := buffer[front..front + n];
        front := front + n;
      }
    }

    /** Append() another stream's remaining bytes, without a length. */
    method Append(other: Stream)
      requires other.front <= |other.buffer|
      modifies this`buffer
      ensures buffer == old(buffer) + old(other.Remaining())
    {
      PushBackBytes(other.Remaining());
    }

    /** A length, and bytes. */
    method WriteRaw(raw: seq<byte>)
      modifies this`buffer
      ensures buffer == old(buffer) + (LengthBytes(|raw|) + raw)
    {
      PushBackBytes(LengthBytes(|raw|));
      PushBackBytes(raw);
    }

    method WriteBools(bits: seq<bool>)
      modifies this`buffer
      ensures buffer == old(buffer) + (LengthBytes(|bits|) + BoolBytes(bits))
    {
      ghost var before := buffer;
      PushBackBytes(LengthBytes(|bits|));
      for i := 0 to |bits|
        invariant buffer == before + LengthBytes(|bits|) + BoolBytes(bits)[..i]
      {
        PushBackBytes([if bits[i] then 1 as byte else 0 as byte]);
      }
      assert BoolBytes(bits)[..|bits|] == BoolBytes(bits);
    }

    /** A length, and elements. */
    method WriteCounted(vs: seq<Value>)
      modifies this`buffer
      ensures buffer == old(buffer) + (LengthBytes(|vs|) + EncodeAll(vs))
      decreases vs, 1
    {
      PushBackBytes(LengthBytes(|vs|));
      WriteAll(vs);
    }

    /** The writing operators. */
    method Write(v: Value)
      modifies this`buffer
      ensures buffer == old(buffer) + Encode(v)
      decreases v, 2
    {
      match v
      case ScalarValue(raw) => PushBackBytes(raw);
      case StrValue(chars) => WriteRaw(chars);
      case NestedValue(rest) => WriteRaw(rest);
      case BoolsValue(bits) => WriteBools(bits);
      case VectorValue(elems) => WriteCounted(elems);
      case MapValue(entries) => WriteCounted(entries);
      case PointerValue(p) => Write(p);
      case PairValue(a, b) =>
        Write(a);
        Write(b);
    }

    /** The loop of the operators for vectors and maps. */
    method WriteAll(vs: seq<Value>)
      modifies this`buffer
      ensures buffer == old(buffer) + EncodeAll(vs)
      decreases vs, 0
    {
      ghost var before := buffer;
      for i := 0 to |vs|
        invariant buffer + EncodeAll(vs[i..]) == before + EncodeAll(vs)
      {
        assert vs[i..][1..] == vs[i + 1..] && vs[i..][0] == vs[i];
        ghost var last := buffer;
        Write(vs[i]);
        assert last + Encode(vs[i]) + EncodeAll(vs[i + 1..]) == last + (Encode(vs[i]) + EncodeAll(vs[i + 1..]));
      }
      assert vs[|vs|..] == [] && buffer + [] == buffer;
    }

    method ReadLength() returns (ok: bool, n: nat)
      modifies this`front
      ensures DecodeLength(buffer, old(front)) == if ok then Some(Read(n, front)) else None
    {
      var s;
      ok, s := PopFrontBytes(SIZE_WIDTH);
      n := FromBytes(s);
    }

    method ReadRaw() returns (ok: bool, s: seq<byte>)
      modifies this`front
      ensures DecodeRaw(buffer, old(front)) == if ok then Some(Read(s, front)) else None
    {
      var n;
      ok, n := ReadLength();
      s := [];
      if ok {
        ok, s := PopFrontBytes(n);
      }
    }

    /** The reading operators; ok is false when they would read behind the buffer. */
    method ReadValue(t: Type) returns (ok: bool, v: Value)
      modifies this`front
      ensures Decode(t, buffer, old(front)) == if ok then Some(Read(v, front)) else None
      decreases TypeSize(t), 0
    {
      v := ScalarValue([]);
      match t
      case Scalar(w) =>
        var s;
        ok, s := PopFrontBytes(w);
        v := ScalarValue(s);
      case Str =>
        var s;
        ok, s := ReadRaw();
        v := StrValue(s);
      case Bools =>
        var s;
        ok, s := ReadRaw();
        v := BoolsValue(Bits(s));
      case Nested =>
        var s;
        ok, s := ReadRaw();
        v := NestedValue(s);
      case Vector(e) =>
        var n, vs;
        ok, n := ReadLength();
        if ok {
          ok, vs := ReadAll(e, n);
          v := VectorValue(vs);
        }
      case Map(k, e) =>
        var n, vs;
        ok, n := ReadLength();
        if ok {
          ok, vs := ReadAll(Pair(k, e), n);
          v := MapValue(InsertAll(vs));
        }
      case Pair(ta, tb) =>
        var a, b;
        ok, a := ReadValue(ta);
        if ok {
          ok, b := ReadValue(tb);
          v := PairValue(a, b);
        }
      case Pointer(e) =>
        var p;
        ok, p := ReadValue(e);
        v := PointerValue(p);
    }

    /** The loop of the operators for vectors and maps. */
    method ReadAll(t: Type, n: nat) returns (ok: bool, vs: seq<Value>)
      modifies this`front
      ensures DecodeAll(t, buffer, old(front), n) == if ok then Some(Read(vs, front)) else None
      decreases TypeSize(t), n + 1
    {
      vs := [];
      ok := true;
      ghost var start := front;
      PrependNone(DecodeAll(t, buffer, front, n));
      for i := 0 to n
        invariant ok
        invariant DecodeAll(t, buffer, start, n) == Prepend(vs, DecodeAll(t, buffer, front, n - i))
      {
        var v;
        ok, v := ReadValue(t);
        if !ok {
          return;
        }
        PrependOne(vs, v, DecodeAll(t, buffer, front, n - i - 1));
        vs := vs + [v];
      }
      assert vs + [] == vs;
    }
  }

  function Prepend(vs: seq<Value>, r: Option<Read<seq<Value>>>): Option<Read<seq<Value>>>
  {
    match r
    case Some(rest) => Some(Read(vs + rest.got, rest.at))
    case None => None
  }

  lemma PrependNone(r: Option<Read<seq<Value>>>)
    ensures Prepend([], r) == r
  {
    if r.Some? {
      assert [] + r.value.got == r.value.got;
    }
  }

  lemma PrependOne(vs: seq<Value>, v: Value, r: Option<Read<seq<Value>>>)
    ensures Prepend(vs + [v], r) == Prepend(vs, Prepend([v], r))
  {
    if r.Some? {
      assert vs + [v] + r.value.got == vs + ([v] + r.value.got);
    }
  }

  /**
   * Written to a stream that holds other data, with more written behind it, a value comes back when the cursor
   * is at it.
   */
  method WriteThenRead(stream: Stream, v: Value, t: Type, after: seq<byte>) returns (ok: bool, v': Value)
    requires HasType(v, t) && stream.front == |stream.buffer|
    modifies stream
    ensures ok && v' == v
    ensures stream.front <= |stream.buffer| && stream.Remaining() == after
  {
    ghost var at, before := stream.front, stream.buffer;
    stream.Write(v);
    stream.PushBackBytes(after);
    assert stream.buffer[at..at + |Encode(v)|] == Encode(v);
    RoundTrip(v, t, stream.buffer, at);
    ok, v' := stream.ReadValue(t);
    assert stream.buffer == before + Encode(v) + after;
  }
}
