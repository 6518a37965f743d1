/** Self-delimiting encodings: integers with a tag for sign and width, length-prefixed byte strings,
    type-length-value triples and objects made of them. Each has a reader that recovers the value from the front
    of a longer stream, which is what makes the encodings unambiguous. */
module Serialization {
  import opened Common

  const UINT8: byte := 2
  const UINT16: byte := 3
  const UINT32: byte := 4
  const UINT64: byte := 5
  const NEG_UINT8: byte := 6
  const NEG_UINT16: byte := 7
  const NEG_UINT32: byte := 8
  const NEG_UINT64: byte := 9
  const INT: byte := 12
  const BYTES: byte := 16
  const SPARSE_OBJECT: byte := 18

  // ----- digits

  /** Base-256 digits, least significant first; zero has one digit. */
  function Digits(n: nat): (d: bytes)
    ensures d != []
  {
    if n < 256 then [n as byte] else [(n % 256) as byte] + Digits(n / 256)
  }

  function FromDigits(d: bytes): nat {
    if d == [] then 0 else d[0] as int + 256 * FromDigits(d[1..])
  }

  function Zeros(n: nat): (z: bytes)
    ensures |z| == n
  {
    if n == 0 then [] else [0] + Zeros(n - 1)
  }

  lemma {:induction false} DigitsValue(n: nat)
    ensures FromDigits(Digits(n)) == n
  {
    if n >= 256 { DigitsValue(n / 256); } else { assert [n as byte][1..] == []; }
  }

  lemma {:induction false} DigitsFewer(n: nat)
    ensures n > 0 ==> |Digits(n)| <= n
    ensures n >= 256 ==> |Digits(n)| < n
  {
    if n >= 256 { DigitsFewer(n / 256); }
  }

  lemma {:induction false} ZerosValue(n: nat)
    ensures FromDigits(Zeros(n)) == 0
  {
    if n > 0 { ZerosValue(n - 1); }
  }

  lemma {:induction false} PaddedValue(d: bytes, n: nat)
    ensures FromDigits(d + Zeros(n)) == FromDigits(d)
  {
    if d == [] {
      assert d + Zeros(n) == Zeros(n);
      ZerosValue(n);
    } else {
      PaddedValue(d[1..], n);
      assert (d + Zeros(n))[1..] == d[1..] + Zeros(n);
    }
  }

  // ----- integers

  function Abs(i: int): nat { if i < 0 then -i else i }

  function Tag(i: int, positive: byte, negative: byte): bytes { [if i >= 0 then positive else negative] }

  function SerializeInt(i: int): bytes
    decreases Abs(i)
  {
    var d := Digits(Abs(i));
    DigitsFewer(Abs(i));
    if |d| == 1 then Tag(i, UINT8, NEG_UINT8) + d
    else if |d| == 2 then Tag(i, UINT16, NEG_UINT16) + d
    else if |d| <= 4 then Tag(i, UINT32, NEG_UINT32) + (d + Zeros(4 - |d|))
    else if |d| <= 8 then Tag(i, UINT64, NEG_UINT64) + (d + Zeros(8 - |d|))
    else
      SmallHasOneDigit(Abs(i));
      [INT] + [if i >= 0 then 1 as byte else 0] + SerializeInt(|d|) + d
  }

  lemma SmallHasOneDigit(n: nat)
    ensures n < 256 <==> |Digits(n)| == 1
  {
  }

  /** The number of payload bytes after each tag, and whether the tag stands for a negative number. */
  function Width(tag: byte): nat {
    if tag == UINT8 || tag == NEG_UINT8 then 1
    else if tag == UINT16 || tag == NEG_UINT16 then 2
    else if tag == UINT32 || tag == NEG_UINT32 then 4
    else if tag == UINT64 || tag == NEG_UINT64 then 8
    else 0
  }

  function Signed(positive: bool, n: nat): int { if positive then n else 0 - n }

  /** Reads one integer off the front of a stream. */
  function ReadInt(b: bytes): Option<(int, bytes)>
    decreases |b|
  {
    if b == [] then None
    else if b[0] == INT then
      if |b| < 2 then None
      else
        var size := ReadInt(b[2..]);
        if size.None? || !(0 <= size.value.0 <= |size.value.1|) then None
        else
          var (n, rest) := size.value;
          Some((Signed(b[1] == 1, FromDigits(rest[..n])), rest[n..]))
    else
      var w := Width(b[0]);
      if w == 0 || |b| < 1 + w then None
      else Some((Signed(b[0] <= UINT64, FromDigits(b[1..1 + w])), b[1 + w..]))
  }

  lemma ReadFixed(tag: byte, d: bytes, rest: bytes)
    requires tag != INT && Width(tag) == |d| > 0
    ensures ReadInt([tag] + d + rest) == Some((Signed(tag <= UINT64, FromDigits(d)), rest))
  {
    var b := [tag] + d + rest;
    assert b[1..1 + |d|] == d && b[1 + |d|..] == rest;
  }

  /** An integer of at most eight digits is a tag and a payload of the width that tag announces. */
  lemma FixedForm(i: int) returns (tag: byte, d: bytes)
    requires |Digits(Abs(i))| <= 8
    ensures SerializeInt(i) == [tag] + d && tag != INT && Width(tag) == |d| > 0
    ensures i == Signed(tag <= UINT64, FromDigits(d))
  {
    var n := Abs(i);
    d := Digits(n);
    DigitsValue(n);
    var w := if |d| <= 2 then |d| else if |d| <= 4 then 4 else 8;
    PaddedValue(d, w - |d|);
    Units(d);
    tag := SerializeInt(i)[0];
    d := d + Zeros(w - |d|);
  }

  lemma ReadBig(sign: byte, size: bytes, d: bytes, rest: bytes)
    requires ReadInt(size + (d + rest)) == Some((|d|, d + rest))
    ensures ReadInt([INT] + [sign] + size + d + rest) == Some((Signed(sign == 1, FromDigits(d)), rest))
  {
    var b := [INT] + [sign] + size + d + rest;
    assert b[2..] == size + (d + rest);
    Halves(d, rest);
  }

  lemma Halves<T>(a: seq<T>, b: seq<T>)
    ensures (a + b)[..|a|] == a && (a + b)[|a|..] == b
  {
  }

  /** What is written for an integer is read back, whatever follows it. */
  lemma {:induction false} ReadSerializedInt(i: int, rest: bytes)
    ensures ReadInt(SerializeInt(i) + rest) == Some((i, rest))
    decreases Abs(i)
  {
    var d := Digits(Abs(i));
    DigitsValue(Abs(i));
    DigitsFewer(Abs(i));
    SmallHasOneDigit(Abs(i));
    hide ReadInt;
    if |d| <= 8 {
      hide SerializeInt;
      var tag, payload := FixedForm(i);
      ReadFixed(tag, payload, rest);
    } else {
      ReadSerializedInt(|d|, d + rest);
      ReadBig(if i >= 0 then 1 else 0, SerializeInt(|d|), d, rest);
    }
  }

  /** Different integers have different encodings, and none is a prefix of another. */
  lemma IntPrefixFree(i: int, j: int, x: bytes, y: bytes)
    requires SerializeInt(i) + x == SerializeInt(j) + y
    ensures i == j && x == y
  {
    ReadSerializedInt(i, x);
    ReadSerializedInt(j, y);
  }

  ghost function Power256(k: nat): nat { if k == 0 then 1 else 256 * Power256(k - 1) }

  /** A number has no more than `k` digits exactly when it is below the k-th power of 256. */
  lemma {:induction false} DigitsWithin(n: nat, k: nat)
    requires k > 0
    ensures |Digits(n)| <= k <==> n < Power256(k)
    decreases k
  {
    if k == 1 {
      assert Power256(1) == 256 * Power256(0);
    } else if n < 256 {
      PowerAtLeast(k);
    } else {
      DigitsWithin(n / 256, k - 1);
      assert n / 256 < Power256(k - 1) <==> n < 256 * Power256(k - 1);
    }
  }

  lemma {:induction false} PowerAtLeast(k: nat)
    requires k > 0
    ensures Power256(k) >= 256
  {
    if k == 1 { assert Power256(1) == 256 * Power256(0); } else { PowerAtLeast(k - 1); }
  }

  lemma Powers()
    ensures Power256(1) == 256 && Power256(2) == 65536 && Power256(4) == 4294967296 && Power256(8) == 18446744073709551616
  {
    assert Power256(0) == 1 && Power256(3) == 256 * Power256(2);
    assert Power256(5) == 256 * Power256(4) && Power256(6) == 256 * Power256(5) && Power256(7) == 256 * Power256(6);
  }

  /** How an integer is written: by size one, two, four or eight bytes, least significant first, behind a tag that
      tells width and sign; beyond that its sign, the number of its bytes, written in the same way, and the bytes. */
  lemma IntLayout(i: int)
    ensures var n, r := Abs(i), SerializeInt(i);
      if n < 256 then |r| == 2 && r[0] == (if i >= 0 then 2 else 6) && r[1] as int == n
      else if n < 65536 then |r| == 3 && r[0] == (if i >= 0 then 3 else 7) && r[1] as int + 256 * r[2] as int == n
      else if n < 4294967296 then |r| == 5 && r[0] == (if i >= 0 then 4 else 8) && FromDigits(r[1..]) == n
      else if n < 18446744073709551616 then |r| == 9 && r[0] == (if i >= 0 then 5 else 9) && FromDigits(r[1..]) == n
      else BigLayout(i, r)
  {
    hide Digits, FromDigits, SerializeInt, BigLayout;
    DigitCounts(Abs(i));
    if Abs(i) < 256 { OneByte(i); }
    else if Abs(i) < 65536 { TwoBytes(i); }
    else if Abs(i) < 18446744073709551616 { PaddedBytes(i); }
    else { BigBytes(i); }
  }

  lemma DigitCounts(n: nat)
    ensures (|Digits(n)| <= 1 <==> n < 256) && (|Digits(n)| <= 2 <==> n < 65536)
    ensures (|Digits(n)| <= 4 <==> n < 4294967296) && (|Digits(n)| <= 8 <==> n < 18446744073709551616)
  {
    hide Digits, Power256;
    Powers();
    DigitsWithin(n, 1);
    DigitsWithin(n, 2);
    DigitsWithin(n, 4);
    DigitsWithin(n, 8);
  }

  lemma OneByte(i: int)
    requires Abs(i) < 256
    ensures var r := SerializeInt(i); |r| == 2 && r[0] == (if i >= 0 then 2 else 6) && r[1] as int == Abs(i)
  {
  }

  lemma TwoBytes(i: int)
    requires |Digits(Abs(i))| == 2
    ensures var r := SerializeInt(i); |r| == 3 && r[0] == (if i >= 0 then 3 else 7) && r[1] as int + 256 * r[2] as int == Abs(i)
  {
    var d := Digits(Abs(i));
    DigitsValue(Abs(i));
    assert d[1..][1..] == [] && FromDigits(d) == d[0] as int + 256 * FromDigits(d[1..]);
  }

  lemma PaddedBytes(i: int)
    requires 2 < |Digits(Abs(i))| <= 8
    ensures var r, w := SerializeInt(i), if |Digits(Abs(i))| <= 4 then 4 else 8;
      |r| == 1 + w && r[0] == (if w == 4 then (if i >= 0 then 4 else 8) else if i >= 0 then 5 else 9) && FromDigits(r[1..]) == Abs(i)
  {
    var d := Digits(Abs(i));
    var w := if |d| <= 4 then 4 else 8;
    DigitsValue(Abs(i));
    PaddedValue(d, w - |d|);
    assert SerializeInt(i)[1..] == d + Zeros(w - |d|);
  }

  lemma BigBytes(i: int)
    requires |Digits(Abs(i))| > 8
    ensures BigLayout(i, SerializeInt(i))
  {
    hide Digits, FromDigits;
    var d := Digits(Abs(i));
    DigitsValue(Abs(i));
    SmallHasOneDigit(Abs(i));
    NoLeadingZero(Abs(i));
    assert SerializeInt(i) == [12, if i >= 0 then 1 as byte else 0] + SerializeInt(|d|) + d;
  }

  ghost predicate BigLayout(i: int, r: bytes) {
    exists d: bytes {:trigger FromDigits(d)} ::
      && r == [12, if i >= 0 then 1 as byte else 0] + SerializeInt(|d|) + d
      && FromDigits(d) == Abs(i) && d != [] && d[|d| - 1] != 0
  }

  lemma {:induction false} NoLeadingZero(n: nat)
    requires n > 0
    ensures Digits(n)[|Digits(n)| - 1] != 0
  {
    if n >= 256 { NoLeadingZero(n / 256); }
  }

  method ComputeSerializeInt(i: int) returns (r: bytes)
    ensures r == SerializeInt(i)
    decreases Abs(i)
  {
    var positive, n := i >= 0, Abs(i);
    var s := [(n % 256) as byte];
    n := n / 256;
    while n != 0
      invariant Digits(Abs(i)) == if n == 0 then s else s + Digits(n)
    {
      DigitStep(n);
      Assoc(s, [(n % 256) as byte], if n < 256 then [] else Digits(n / 256));
      Units(s + [(n % 256) as byte]);
      s := s + [(n % 256) as byte];
      n := n / 256;
    }
    DigitsFewer(Abs(i));
    SmallHasOneDigit(Abs(i));
    if |s| == 1 {
      return [if positive then UINT8 else NEG_UINT8] + s;
    } else if |s| == 2 {
      return [if positive then UINT16 else NEG_UINT16] + s;
    } else if |s| <= 4 {
      return [if positive then UINT32 else NEG_UINT32] + (s + Zeros(4 - |s|));
    } else if |s| <= 8 {
      return [if positive then UINT64 else NEG_UINT64] + (s + Zeros(8 - |s|));
    }
    var size := ComputeSerializeInt(|s|);
    r := [INT] + [if positive then 1 as byte else 0] + size + s;
  }

  lemma DigitStep(n: nat)
    ensures Digits(n) == [(n % 256) as byte] + (if n < 256 then [] else Digits(n / 256))
  {
  }

  // ----- byte strings

  function SerializeBytes(b: bytes): bytes { [BYTES] + SerializeInt(|b|) + b }

  function ReadBytes(s: bytes): Option<(bytes, bytes)> {
    if s == [] || s[0] != BYTES then None
    else
      var size := ReadInt(s[1..]);
      if size.None? || !(0 <= size.value.0 <= |size.value.1|) then None
      else Some((size.value.1[..size.value.0], size.value.1[size.value.0..]))
  }

  lemma ReadSerializedBytes(b: bytes, rest: bytes)
    ensures ReadBytes(SerializeBytes(b) + rest) == Some((b, rest))
  {
    assert (SerializeBytes(b) + rest)[1..] == SerializeInt(|b|) + (b + rest);
    ReadSerializedInt(|b|, b + rest);
    Halves(b, rest);
  }

  // ----- type-length-value

  datatype Tlv = Tlv(tag: int, value: bytes)

  datatype EncodeError = TypeOutOfRange | ValueTooLong | TooManyAttributes

  const MAX_VALUE := 0xff0000

  function SerializeTlv(t: Tlv): Outcome<bytes, EncodeError> {
    if |t.value| >= MAX_VALUE then Raised(ValueTooLong)
    else if !(0 <= t.tag < 256) then Raised(TypeOutOfRange)
    else Ok([t.tag as byte] + SerializeInt(|t.value|) + t.value)
  }

  function ReadTlv(s: bytes): Option<(Tlv, bytes)> {
    if s == [] then None
    else
      var size := ReadInt(s[1..]);
      if size.None? || !(0 <= size.value.0 <= |size.value.1|) then None
      else Some((Tlv(s[0] as int, size.value.1[..size.value.0]), size.value.1[size.value.0..]))
  }

  lemma ReadSerializedTlv(t: Tlv, rest: bytes)
    requires SerializeTlv(t).Ok?
    ensures ReadTlv(SerializeTlv(t).value + rest) == Some((t, rest))
  {
    assert (SerializeTlv(t).value + rest)[1..] == SerializeInt(|t.value|) + (t.value + rest);
    ReadSerializedInt(|t.value|, t.value + rest);
    Halves(t.value, rest);
  }

  function SerializeTlvs(ts: seq<Tlv>): Outcome<bytes, EncodeError> {
    if ts == [] then Ok([])
    else
      var head := SerializeTlv(ts[0]);
      var tail := SerializeTlvs(ts[1..]);
      if head.Raised? then head else if tail.Raised? then tail else Ok(head.value + tail.value)
  }

  function ReadTlvs(s: bytes, count: nat): Option<(seq<Tlv>, bytes)>
    decreases count
  {
    if count == 0 then Some(([], s))
    else
      var head := ReadTlv(s);
      if head.None? then None
      else
        var tail := ReadTlvs(head.value.1, count - 1);
        if tail.None? then None else Some(([head.value.0] + tail.value.0, tail.value.1))
  }

  lemma HeadTail<T>(s: seq<T>)
    requires s != []
    ensures [s[0]] + s[1..] == s
  {
  }

  lemma {:induction false} ReadSerializedTlvs(ts: seq<Tlv>, rest: bytes)
    requires SerializeTlvs(ts).Ok?
    ensures ReadTlvs(SerializeTlvs(ts).value + rest, |ts|) == Some((ts, rest))
    decreases |ts|
  {
    hide SerializeTlv, ReadTlv;
    if ts == [] {
      Units(rest);
    } else {
      var head, tail := SerializeTlv(ts[0]).value, SerializeTlvs(ts[1..]).value;
      Assoc(head, tail, rest);
      ReadSerializedTlv(ts[0], tail + rest);
      ReadSerializedTlvs(ts[1..], rest);
      HeadTail(ts);
    }
  }

  /** A triple is accepted exactly when its type is a byte and its value shorter than 0xff0000 bytes; it is written as
      type, length and value. */
  lemma TlvLayout(t: Tlv)
    ensures SerializeTlv(t).Ok? <==> 0 <= t.tag < 256 && |t.value| < 16711680
    ensures SerializeTlv(t) == Raised(TypeOutOfRange) <==> !(0 <= t.tag < 256) && |t.value| < 16711680
    ensures SerializeTlv(t).Ok? ==> SerializeTlv(t).value == [t.tag as byte] + SerializeInt(|t.value|) + t.value
  {
  }

  ghost predicate AllAccepted(ts: seq<Tlv>) { forall i :: 0 <= i < |ts| ==> 0 <= ts[i].tag < 256 && |ts[i].value| < 16711680 }

  /** A list of them is accepted exactly when each of them is. */
  lemma {:induction false} TlvsAccepted(ts: seq<Tlv>)
    ensures SerializeTlvs(ts).Ok? <==> AllAccepted(ts)
    decreases |ts|
  {
    if ts != [] {
      TlvLayout(ts[0]);
      TlvsAccepted(ts[1..]);
      hide SerializeTlv;
      assert AllAccepted(ts) <==> AllAccepted([ts[0]]) && AllAccepted(ts[1..]) by { HeadTail(ts); }
    }
  }

  // ----- objects

  datatype SparseObject = SparseObject(objectType: bytes, attributes: seq<Tlv>)

  function SerializeObject(o: SparseObject): Outcome<bytes, EncodeError> {
    if |o.attributes| >= 256 then Raised(TooManyAttributes)
    else
      var attributes := SerializeTlvs(o.attributes);
      if attributes.Raised? then attributes
      else Ok([SPARSE_OBJECT] + SerializeBytes(o.objectType) + [|o.attributes| as byte] + attributes.value)
  }

  function ReadObject(s: bytes): Option<(SparseObject, bytes)> {
    if s == [] || s[0] != SPARSE_OBJECT then None
    else
      var name := ReadBytes(s[1..]);
      if name.None? || name.value.1 == [] then None
      else
        var attributes := ReadTlvs(name.value.1[1..], name.value.1[0] as nat);
        if attributes.None? then None
        else Some((SparseObject(name.value.0, attributes.value.0), attributes.value.1))
  }

  /** An object is read back from the front of any longer stream. */
  lemma ReadSerializedObject(o: SparseObject, rest: bytes)
    requires SerializeObject(o).Ok?
    ensures ReadObject(SerializeObject(o).value + rest) == Some((o, rest))
  {
    var attributes := SerializeTlvs(o.attributes).value;
    var count := [|o.attributes| as byte];
    var s := SerializeObject(o).value + rest;
    assert s[1..] == SerializeBytes(o.objectType) + (count + (attributes + rest));
    ReadSerializedBytes(o.objectType, count + (attributes + rest));
    assert (count + (attributes + rest))[1..] == attributes + rest;
    ReadSerializedTlvs(o.attributes, rest);
  }

  /** An object is accepted exactly when it has fewer than 256 attributes and all of them are; it is written as 18, the
      type as a byte string behind 16 and its length, the number of attributes, and the attributes. */
  lemma ObjectLayout(o: SparseObject)
    ensures SerializeObject(o).Ok? <==> |o.attributes| < 256 && AllAccepted(o.attributes)
    ensures SerializeObject(o).Ok? ==>
      SerializeObject(o).value == [18, 16] + SerializeInt(|o.objectType|) + o.objectType + [|o.attributes| as byte]
                                  + SerializeTlvs(o.attributes).value
  {
    TlvsAccepted(o.attributes);
  }

  /** Objects in a row are told apart: the stream of one determines it, and where the next begins. */
  lemma ObjectPrefixFree(o: SparseObject, p: SparseObject, x: bytes, y: bytes)
    requires SerializeObject(o).Ok? && SerializeObject(p).Ok?
    requires SerializeObject(o).value + x == SerializeObject(p).value + y
    ensures o == p && x == y
  {
    ReadSerializedObject(o, x);
    ReadSerializedObject(p, y);
  }
}
