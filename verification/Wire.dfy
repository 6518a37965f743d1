/** The datagrams of the sliding-window protocol: data [1 | seq: u32 | payload], ack [2 | seq: u32 | rwnd: u16]. */
module Wire {
  import opened Common

  const TYPE_DATA: byte := 1
  const TYPE_ACK: byte := 2
  const U32: int := 0x1_0000_0000
  const U16: int := 0x1_0000

  datatype Packet = Data(seqNo: nat, payload: bytes) | Ack(seqNo: nat, rwnd: nat)

  /** `StructError` is what the readers catch; indexing an empty datagram raises something else. */
  datatype WireError = StructError | IndexError

  function PackU32(n: nat): bytes
    requires n < U32
  {
    [(n / 0x100_0000) as byte, (n / 0x1_0000 % 0x100) as byte, (n / 0x100 % 0x100) as byte, (n % 0x100) as byte]
  }

  function UnpackU32(b: bytes): nat
    requires |b| == 4
  {
    b[0] as int * 0x100_0000 + b[1] as int * 0x1_0000 + b[2] as int * 0x100 + b[3] as int
  }

  function PackU16(n: nat): bytes
    requires n < U16
  {
    [(n / 0x100) as byte, (n % 0x100) as byte]
  }

  function UnpackU16(b: bytes): nat
    requires |b| == 2
  {
    b[0] as int * 0x100 + b[1] as int
  }

  function EncodeData(seqNo: nat, payload: bytes): Outcome<bytes, WireError> {
    if seqNo >= U32 then Raised(StructError) else Ok([TYPE_DATA] + PackU32(seqNo) + payload)
  }

  function EncodeAck(seqNo: nat, rwnd: nat): Outcome<bytes, WireError> {
    if seqNo >= U32 || rwnd >= U16 then Raised(StructError) else Ok([TYPE_ACK] + PackU32(seqNo) + PackU16(rwnd))
  }

  function Decode(raw: bytes): Outcome<Packet, WireError> {
    if raw == [] then Raised(IndexError)
    else if raw[0] == TYPE_DATA then
      if |raw| < 5 then Raised(StructError) else Ok(Data(UnpackU32(raw[1..5]), raw[5..]))
    else if raw[0] == TYPE_ACK then
      if |raw| < 7 then Raised(StructError) else Ok(Ack(UnpackU32(raw[1..5]), UnpackU16(raw[5..7])))
    else Raised(StructError)
  }

  /** The bytes of a word are the bytes of its halves. */
  lemma Halve(n: nat, hi: nat, lo: nat)
    requires n == hi * 0x1_0000 + lo && lo < 0x1_0000
    ensures n / 0x100_0000 == hi / 0x100 && n / 0x1_0000 == hi
    ensures n / 0x100 % 0x100 == lo / 0x100 && n % 0x100 == lo % 0x100
  {
    Split(lo / 0x100, lo % 0x100);
    Unique(n, 0x1_0000, hi, lo);
    Unique(n, 0x100, hi * 0x100 + lo / 0x100, lo % 0x100);
    Unique(hi * 0x100 + lo / 0x100, 0x100, hi, lo / 0x100);
    Unique(n, 0x100_0000, hi / 0x100, hi % 0x100 * 0x1_0000 + lo);
  }

  lemma Unique(n: nat, d: nat, q: nat, r: nat)
    requires n == q * d + r && r < d
    ensures n / d == q && n % d == r
  {
    var e := n / d;
    if e > q { Multiples(q + 1, e, d); }
    if e < q { Multiples(e + 1, q, d); }
  }

  lemma Multiples(a: nat, b: nat, d: nat)
    requires a <= b
    ensures a * d <= b * d
  {
  }

  lemma Split(a: nat, b: nat)
    requires b < 0x100
    ensures (a * 0x100 + b) / 0x100 == a && (a * 0x100 + b) % 0x100 == b
  {
  }

  lemma U32RoundTrip(n: nat)
    requires n < U32
    ensures UnpackU32(PackU32(n)) == n
  {
    var hi, lo := n / 0x1_0000, n % 0x1_0000;
    Halve(n, hi, lo);
  }

  lemma U32Unpack(b: bytes)
    requires |b| == 4
    ensures UnpackU32(b) < U32 && PackU32(UnpackU32(b)) == b
  {
    var n := UnpackU32(b);
    var hi, lo := b[0] as int * 0x100 + b[1] as int, b[2] as int * 0x100 + b[3] as int;
    assert n == hi * 0x1_0000 + lo;
    Halve(n, hi, lo);
    Split(b[0] as int, b[1] as int);
    Split(b[2] as int, b[3] as int);
  }

  /** The bytes of a data packet: 1, the number with the most significant byte first, the payload. It can be encoded
      exactly when its number is below 2^32. */
  lemma DataLayout(seqNo: nat, payload: bytes)
    ensures EncodeData(seqNo, payload).Ok? <==> seqNo < 4294967296
    ensures EncodeData(seqNo, payload).Ok? ==>
      var raw := EncodeData(seqNo, payload).value;
      && |raw| == 5 + |payload| && raw[0] == 1 && raw[5..] == payload
      && raw[1] as int * 16777216 + raw[2] as int * 65536 + raw[3] as int * 256 + raw[4] as int == seqNo
  {
    if seqNo < U32 {
      U32RoundTrip(seqNo);
      var raw := [TYPE_DATA] + PackU32(seqNo) + payload;
      assert raw[1..5] == PackU32(seqNo) && raw[5..] == payload;
    }
  }

  /** Those of an ack: 2, the number, the room with its more significant byte first. It can be encoded exactly when the
      number is below 2^32 and the room below 2^16. */
  lemma AckLayout(seqNo: nat, rwnd: nat)
    ensures EncodeAck(seqNo, rwnd).Ok? <==> seqNo < 4294967296 && rwnd < 65536
    ensures EncodeAck(seqNo, rwnd).Ok? ==>
      var raw := EncodeAck(seqNo, rwnd).value;
      && |raw| == 7 && raw[0] == 2
      && raw[1] as int * 16777216 + raw[2] as int * 65536 + raw[3] as int * 256 + raw[4] as int == seqNo
      && raw[5] as int * 256 + raw[6] as int == rwnd
  {
    if seqNo < U32 && rwnd < U16 {
      U32RoundTrip(seqNo);
      var raw := [TYPE_ACK] + PackU32(seqNo) + PackU16(rwnd);
      assert raw[1..5] == PackU32(seqNo) && raw[5..7] == PackU16(rwnd);
    }
  }

  /** A datagram decodes exactly when it begins with 1 and has five bytes, or with 2 and has seven; only the empty one
      raises what the readers do not catch. */
  lemma DecodesExactly(raw: bytes)
    ensures Decode(raw).Ok? <==> (|raw| >= 5 && raw[0] == 1) || (|raw| >= 7 && raw[0] == 2)
    ensures Decode(raw) == Raised(IndexError) <==> raw == []
    ensures Decode(raw).Ok? ==> (Decode(raw).value.Data? <==> raw[0] == 1)
  {
  }

  /** What is encoded is decoded. */
  lemma DecodeEncoded(seqNo: nat, payload: bytes, rwnd: nat)
    ensures EncodeData(seqNo, payload).Ok? ==> Decode(EncodeData(seqNo, payload).value) == Ok(Data(seqNo, payload))
    ensures EncodeAck(seqNo, rwnd).Ok? ==> Decode(EncodeAck(seqNo, rwnd).value) == Ok(Ack(seqNo, rwnd))
  {
    if EncodeData(seqNo, payload).Ok? {
      U32RoundTrip(seqNo);
      var raw := [TYPE_DATA] + PackU32(seqNo) + payload;
      assert raw[1..5] == PackU32(seqNo) && raw[5..] == payload;
    }
    if EncodeAck(seqNo, rwnd).Ok? {
      U32RoundTrip(seqNo);
      var raw := [TYPE_ACK] + PackU32(seqNo) + PackU16(rwnd);
      assert raw[1..5] == PackU32(seqNo) && raw[5..7] == PackU16(rwnd);
    }
  }

  /** A datagram that decodes as data is the encoding of that data; one that decodes as an ack begins with the
      encoding of that ack (bytes after it are ignored). */
  lemma EncodeDecoded(raw: bytes)
    requires Decode(raw).Ok?
    ensures var p := Decode(raw).value;
      match p
      case Data(n, payload) => EncodeData(n, payload) == Ok(raw)
      case Ack(n, rwnd) => EncodeAck(n, rwnd).Ok? && EncodeAck(n, rwnd).value == raw[..7]
  {
    U32Unpack(raw[1..5]);
    if raw[0] == TYPE_DATA {
      assert raw == [raw[0]] + raw[1..5] + raw[5..];
    } else {
      assert raw[..7] == [raw[0]] + raw[1..5] + raw[5..7];
      assert PackU16(UnpackU16(raw[5..7])) == raw[5..7];
    }
  }
}
