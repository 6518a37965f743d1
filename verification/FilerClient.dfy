/** The client side of a transfer: re-chunking a stream into pieces, uploading them in order, and reading a
    stored file back chunk by chunk. */
module Client {
  import opened Common
  import opened Intervals
  import opened Slices
  import opened ByteUnion
  import opened InMem

  datatype Settings = Settings(chunkSize: int, allowSmaller: bool, allowBigger: bool)

  datatype ClientError =
    | FromBackend(error: Error)
    | LengthExceeded(expected: int, got: int)
    | HashMismatch
    | LengthMismatch(expected: int, got: int)

  // ----- re-chunking

  /** Full pieces off the front of the buffer. */
  function Blocks(buffer: bytes, size: int): seq<bytes>
    requires size > 0
  {
    if |buffer| < size then [] else [buffer[..size]] + Blocks(buffer[size..], size)
  }

  function Remainder(buffer: bytes, size: int): bytes
    requires size > 0
  {
    if |buffer| < size then buffer else Remainder(buffer[size..], size)
  }

  predicate SendsWhole(c: Settings, n: nat) {
    (n < c.chunkSize && c.allowSmaller) || (n > c.chunkSize && c.allowBigger)
  }

  /** The pieces sent for the remaining chunks, given what is buffered. */
  function Rechunk(c: Settings, buffer: bytes, chunks: seq<bytes>): seq<bytes>
    requires c.chunkSize > 0
    decreases |chunks|
  {
    if chunks == [] then (if buffer == [] then [] else [buffer])
    else
      var b := buffer + chunks[0];
      if SendsWhole(c, |b|) then [b] + Rechunk(c, [], chunks[1..])
      else Blocks(b, c.chunkSize) + Rechunk(c, Remainder(b, c.chunkSize), chunks[1..])
  }

  lemma {:induction false} BlocksConcat(buffer: bytes, size: int)
    requires size > 0
    ensures Concat(Blocks(buffer, size)) + Remainder(buffer, size) == buffer
    ensures |Remainder(buffer, size)| < size
    ensures forall i :: 0 <= i < |Blocks(buffer, size)| ==> |Blocks(buffer, size)[i]| == size
  {
    if |buffer| >= size {
      var tail := buffer[size..];
      BlocksConcat(tail, size);
      assert ([buffer[..size]] + Blocks(tail, size))[1..] == Blocks(tail, size);
      assert buffer == buffer[..size] + tail;
      Assoc(buffer[..size], Concat(Blocks(tail, size)), Remainder(tail, size));
    } else {
      Units(buffer);
    }
  }

  /** Nothing is lost, added or reordered by re-chunking. */
  lemma {:induction false} RechunkConcat(c: Settings, buffer: bytes, chunks: seq<bytes>)
    requires c.chunkSize > 0
    ensures Concat(Rechunk(c, buffer, chunks)) == buffer + Concat(chunks)
    decreases |chunks|
  {
    if chunks != [] {
      var b, rest := buffer + chunks[0], chunks[1..];
      assert buffer + Concat(chunks) == b + Concat(rest);
      if SendsWhole(c, |b|) {
        RechunkConcat(c, [], rest);
        assert [] + Concat(rest) == Concat(rest);
        assert ([b] + Rechunk(c, [], rest))[1..] == Rechunk(c, [], rest);
      } else {
        var rem := Remainder(b, c.chunkSize);
        RechunkConcat(c, rem, rest);
        BlocksConcat(b, c.chunkSize);
        ConcatAppend(Blocks(b, c.chunkSize), Rechunk(c, rem, rest));
        assert Concat(Blocks(b, c.chunkSize)) + (rem + Concat(rest)) == (Concat(Blocks(b, c.chunkSize)) + rem) + Concat(rest);
      }
    } else {
      assert buffer + Concat(chunks) == buffer;
      if buffer != [] { assert [buffer][1..] == []; assert Concat([buffer]) == buffer; }
    }
  }

  /** Unless bigger chunks are allowed no piece exceeds the chunk size; unless smaller ones are, only the last
      piece may fall short of it. */
  lemma {:induction false} RechunkSizes(c: Settings, buffer: bytes, chunks: seq<bytes>)
    requires c.chunkSize > 0 && |buffer| < c.chunkSize
    ensures !c.allowBigger ==> forall i :: 0 <= i < |Rechunk(c, buffer, chunks)| ==> |Rechunk(c, buffer, chunks)[i]| <= c.chunkSize
    ensures !c.allowSmaller ==> forall i :: 0 <= i < |Rechunk(c, buffer, chunks)| - 1 ==> c.chunkSize <= |Rechunk(c, buffer, chunks)[i]|
    ensures !c.allowSmaller ==> forall i :: 0 <= i < |Rechunk(c, buffer, chunks)| ==> Rechunk(c, buffer, chunks)[i] != []
    decreases |chunks|
  {
    if chunks != [] {
      var b, rest := buffer + chunks[0], chunks[1..];
      if SendsWhole(c, |b|) {
        RechunkSizes(c, [], rest);
      } else {
        BlocksConcat(b, c.chunkSize);
        RechunkSizes(c, Remainder(b, c.chunkSize), rest);
      }
    }
  }

  /** With smaller pieces allowed, nothing is held back until the bytes gathered reach the chunk size: chunks that are
      all shorter are sent exactly as they come. */
  lemma {:induction false} ShortAsTheyCome(c: Settings, chunks: seq<bytes>)
    requires c.chunkSize > 0 && c.allowSmaller && forall i :: 0 <= i < |chunks| ==> |chunks[i]| < c.chunkSize
    ensures Rechunk(c, [], chunks) == chunks
    decreases |chunks|
  {
    if chunks != [] {
      assert [] + chunks[0] == chunks[0];
      ShortAsTheyCome(c, chunks[1..]);
    }
  }

  /** With smaller and bigger pieces allowed, so are all chunks. */
  lemma {:induction false} AsTheyCome(c: Settings, chunks: seq<bytes>)
    requires c.chunkSize > 0 && c.allowSmaller && c.allowBigger
    ensures Rechunk(c, [], chunks) == chunks
    decreases |chunks|
  {
    if chunks != [] {
      assert [] + chunks[0] == chunks[0];
      if |chunks[0]| == c.chunkSize { OneBlock(chunks[0], c.chunkSize); }
      AsTheyCome(c, chunks[1..]);
    }
  }

  lemma OneBlock(b: bytes, size: int)
    requires |b| == size > 0
    ensures Blocks(b, size) == [b] && Remainder(b, size) == []
  {
    assert b[..size] == b && b[size..] == [];
    assert Blocks(b, size) == [b[..size]] + Blocks(b[size..], size);
  }

  /** One chunk behind what is held: sent together with it, if that is short and smaller pieces are allowed or long and
      bigger ones are; held with it, if that is short; and otherwise as many full pieces of the two as there are, with
      the rest held. */
  lemma OneChunk(c: Settings, buffer: bytes, chunks: seq<bytes>)
    requires c.chunkSize > 0 && chunks != []
    ensures var b, rest, n := buffer + chunks[0], chunks[1..], |buffer| + |chunks[0]|;
      var full := n / c.chunkSize * c.chunkSize;
      if (n < c.chunkSize && c.allowSmaller) || (n > c.chunkSize && c.allowBigger)
      then Rechunk(c, buffer, chunks) == [b] + Rechunk(c, [], rest)
      else if n < c.chunkSize then Rechunk(c, buffer, chunks) == Rechunk(c, b, rest)
      else 0 <= full <= n && Rechunk(c, buffer, chunks) == Blocks(b[..full], c.chunkSize) + Rechunk(c, b[full..], rest)
  {
    var b := buffer + chunks[0];
    if !SendsWhole(c, |b|) {
      if |b| < c.chunkSize {
        assert Blocks(b, c.chunkSize) + Rechunk(c, b, chunks[1..]) == Rechunk(c, b, chunks[1..]);
      } else {
        FullBlocks(b, c.chunkSize);
      }
    }
  }

  lemma {:induction false} FullBlocks(b: bytes, size: int)
    requires size > 0
    ensures var full := |b| / size * size;
      0 <= full <= |b| && Blocks(b, size) == Blocks(b[..full], size) && Remainder(b, size) == b[full..]
  {
    var full := |b| / size * size;
    if |b| < size {
      assert full == 0 && b[..0] == [] && b[0..] == b;
    } else {
      var tail := b[size..];
      FullBlocks(tail, size);
      OneLess(|b|, size);
      assert b[..full][..size] == b[..size] && b[..full][size..] == tail[..full - size] && tail[full - size..] == b[full..];
    }
  }

  lemma OneLess(n: int, size: int)
    requires 0 < size <= n
    ensures (n - size) / size * size + size == n / size * size
  {
    DropDivisor(n, size);
    assert n == n / size * size + n % size;
    assert n - size == (n - size) / size * size + (n - size) % size;
  }

  // ----- contiguous pieces

  /** The upload calls for pieces sent one after the other from offset 0. */
  function CallsOf(sent: seq<bytes>): (calls: seq<Call>)
    ensures |calls| == |sent|
  {
    if sent == [] then []
    else
      var before := sent[..|sent| - 1];
      CallsOf(before) + [Call(|Concat(before)|, sent[|sent| - 1], None)]
  }

  lemma ConcatSnoc(sent: seq<bytes>, piece: bytes)
    ensures Concat(sent + [piece]) == Concat(sent) + piece
  {
    ConcatAppend(sent, [piece]);
    assert [piece][1..] == [] && piece + [] == piece;
  }

  lemma CallsSnoc(sent: seq<bytes>, piece: bytes)
    ensures CallsOf(sent + [piece]) == CallsOf(sent) + [Call(|Concat(sent)|, piece, None)]
  {
    assert (sent + [piece])[..|sent + [piece]| - 1] == sent;
  }

  /** Contiguous pieces of a file carry that file's bytes. */
  lemma {:induction false} CallsAgree(file: bytes, sent: seq<bytes>)
    requires Concat(sent) <= file
    ensures AllAgree(file, CallsOf(sent))
    decreases |sent|
  {
    if sent != [] {
      var before, last := sent[..|sent| - 1], sent[|sent| - 1];
      assert sent == before + [last];
      hide Concat, AllAgree, AgreesWith, CallsOf;
      ConcatSnoc(before, last);
      FrontOf(file, Concat(before), last);
      CallsAgree(file, before);
      CallsSnoc(before, last);
      AgreeSnoc(file, CallsOf(before), Call(|Concat(before)|, last, None));
    }
  }

  lemma FrontOf(file: bytes, front: bytes, piece: bytes)
    requires front + piece <= file
    ensures front <= file && AgreesWith(file, Call(|front|, piece, None))
  {
    assert forall p :: |front| <= p < |front| + |piece| ==> (front + piece)[p] == piece[p - |front|] == file[p];
  }

  lemma AgreeSnoc(file: bytes, calls: seq<Call>, call: Call)
    requires AllAgree(file, calls) && AgreesWith(file, call)
    ensures AllAgree(file, calls + [call])
  {
    hide AgreesWith;
  }

  /** The store once these pieces have been sent. */
  ghost function StoreOf(total: int, sent: seq<bytes>): Store<Value> { Run(total, true, CallsOf(sent)) }

  lemma StoreSnoc(total: int, sent: seq<bytes>, piece: bytes)
    ensures Consistent(StoreOf(total, sent))
    ensures StoreOf(total, sent + [piece]) == After(StoreOf(total, sent), total, true, Call(|Concat(sent)|, piece, None))
  {
    CallsSnoc(sent, piece);
    var calls := CallsOf(sent + [piece]);
    assert calls[..|calls| - 1] == CallsOf(sent);
  }

  /** Contiguous pieces leave one interval. */
  lemma {:induction false} OneInterval(total: int, sent: seq<bytes>)
    requires sent != [] && |Concat(sent[..|sent| - 1])| <= total
    ensures StoreOf(total, sent).intervals == [Interval(0, Min(|Concat(sent)|, total))]
    decreases |sent|
  {
    hide StoreOf, After, CallsOf, Concat, Consistent;
    var before, last := sent[..|sent| - 1], sent[|sent| - 1];
    assert sent == before + [last];
    ConcatSnoc(before, last);
    StoreSnoc(total, before, last);
    if before == [] {
      NothingSent(total);
    } else {
      var before' := before[..|before| - 1];
      assert before == before' + [before[|before| - 1]];
      ConcatSnoc(before', before[|before| - 1]);
      OneInterval(total, before);
    }
    Extends(StoreOf(total, before), total, Call(|Concat(before)|, last, None));
  }

  lemma NothingSent(total: int)
    ensures StoreOf(total, []) == Empty() && |Concat<byte>([])| == 0
  {
  }

  /** A chunk that starts where the only interval ends extends it. */
  lemma Extends(st: Store<Value>, total: int, call: Call)
    requires Consistent(st) && 0 <= call.offset <= total
    requires st.intervals == [Interval(0, call.offset)] || (st.intervals == [] && call.offset == 0)
    ensures After(st, total, true, call).intervals == [Interval(0, Bound(call, total))]
  {
    var a, b := call.offset, Bound(call, total);
    AfterUnfolds(st, total, true, call);
    if st.intervals == [] {
      DropNothing(st);
    } else {
      var x := Interval(0, a);
      assert Clip([x], a, b) == Clipped(x, a, b) + Clip([x][1..], a, b);
      assert Clip([x], a, b) == [Interval(a, a)];
      if HasKey(st.slices, Interval(a, a)) { WithoutTiled(st.slices, Interval(a, a)); }
      DropNothing(st);
      assert DropWhole(st, [Interval(a, a)]) == DropWhole(st, [Interval(a, a)][1..]);
    }
    assert Cleared(st, a, b) == st;
  }

  // ----- upload

  /** Everything of `m` but the unfinished upload `id` is as in `m1`. */
  ghost predicate SameElsewhere(m: Mem, m1: Mem, id: int) {
    id in m.temps && id in m1.temps && m == m1.(temps := m1.temps[id := m.temps[id]])
  }

  /** After sending these pieces, the upload `id` holds exactly them. */
  ghost predicate Sending(m: Mem, m1: Mem, id: int, total: int, sent: seq<bytes>) {
    && id in m.temps && id in m1.temps
    && m == m1.(temps := m1.temps[id := Temp(total, StoreOf(total, sent))])
  }

  /** When an upload goes through: there is room, the placeholder is free, the stream has the announced length
      and hash, and one interval is within the fragmentation limit. */
  ghost predicate Accepts(p: Params, m: Mem, c: Settings, id: int, total: int, hash: Hash, chunks: seq<bytes>)
    requires c.chunkSize > 0
  {
    && m.sizeMax + total <= p.allowedMemory && id !in m.temps
    && |Concat(chunks)| == total && p.digest(Concat(chunks)) == hash
    && (Rechunk(c, [], chunks) == [] || p.maxParts >= 1)
  }

  /** The placeholder as it is right after it has been prepared. */
  ghost function Opened(m: Mem, id: int, total: int): Mem {
    m.(temps := m.temps[id := Temp(total, Empty())], sizeMax := m.sizeMax + total)
  }

  /** The backend refused a chunk: the client lets the error through and leaves the placeholder, and its room, behind. */
  predicate RefusedChunk(e: Error) { e.ChunkOutOfRange? || e.TooManyParts? }

  predicate LeavesPlaceholder(e: ClientError) { e.FromBackend? && RefusedChunk(e.error) }

  // ----- refused chunks

  /** What stays in the buffer once a chunk has been taken in. */
  function Left(c: Settings, b: bytes): bytes
    requires c.chunkSize > 0
  {
    if SendsWhole(c, |b|) then [] else Remainder(b, c.chunkSize)
  }

  /** Some piece sent now from this buffer starts past the end, or there is no part for it. */
  predicate PieceRefused(c: Settings, maxParts: int, total: int, offset: int, b: bytes)
    requires c.chunkSize > 0
  {
    if SendsWhole(c, |b|) then maxParts < 1 || offset > total else FullRefused(c, maxParts, total, offset, b)
  }

  /** The last of the full pieces is the first to start past the end, if any does. */
  predicate FullRefused(c: Settings, maxParts: int, total: int, offset: int, b: bytes)
    requires c.chunkSize > 0
  {
    |b| >= c.chunkSize && (maxParts < 1 || offset + |b| - |Remainder(b, c.chunkSize)| - c.chunkSize > total)
  }

  /** Whether the backend comes to refuse a piece of the stream, before the client itself notices that it is too long. */
  predicate Refuses(c: Settings, maxParts: int, total: int, offset: int, buffer: bytes, chunks: seq<bytes>)
    requires c.chunkSize > 0
    decreases |chunks|
  {
    if chunks == [] then buffer != [] && (maxParts < 1 || offset > total)
    else
      var b := buffer + chunks[0];
      var next := offset + |b| - |Left(c, b)|;
      PieceRefused(c, maxParts, total, offset, b) || (next <= total && Refuses(c, maxParts, total, next, Left(c, b), chunks[1..]))
  }

  /** How much has been sent when the client notices, after a chunk, that the stream is too long; none if it never does. */
  function Exceeds(c: Settings, total: int, offset: int, buffer: bytes, chunks: seq<bytes>): Option<int>
    requires c.chunkSize > 0
    decreases |chunks|
  {
    if chunks == [] then None
    else
      var b := buffer + chunks[0];
      var next := offset + |b| - |Left(c, b)|;
      if next > total then Some(next) else Exceeds(c, total, next, Left(c, b), chunks[1..])
  }

  /** What an upload that has been let in comes to: a chunk refused by the backend, the length exceeded on the way, a wrong
      hash or length at the end, or success. Giving up is answered otherwise if a file of that hash is stored already. */
  ghost predicate Answers(p: Params, m: Mem, c: Settings, total: int, hash: Hash, chunks: seq<bytes>, r: Outcome<(), ClientError>)
    requires c.chunkSize > 0
  {
    if Refuses(c, p.maxParts, total, 0, [], chunks) then r.Raised? && LeavesPlaceholder(r.error)
    else
      var why :=
        if Exceeds(c, total, 0, [], chunks).Some? then Some(LengthExceeded(total, Exceeds(c, total, 0, [], chunks).value))
        else if p.digest(Concat(chunks)) != hash then Some(HashMismatch)
        else if |Concat(chunks)| != total then Some(LengthMismatch(total, |Concat(chunks)|)) else None;
      r == if why.None? then Ok(()) else Raised(GivenUpWith(m, hash, why.value))
  }

  /** The error that reaches the caller when an upload is given up. */
  ghost function GivenUpWith(m: Mem, hash: Hash, why: ClientError): ClientError {
    if hash in m.files then FromBackend(UploadedMeanwhile) else why
  }

  /** The client notices only what is so: more than announced has been sent then, and no more than the stream holds. */
  lemma {:induction false} ExceedsMeans(c: Settings, total: int, offset: int, buffer: bytes, chunks: seq<bytes>)
    requires c.chunkSize > 0
    ensures var e := Exceeds(c, total, offset, buffer, chunks);
      e.Some? ==> total < e.value <= offset + |buffer| + |Concat(chunks)|
    decreases |chunks|
  {
    if chunks != [] {
      var b := buffer + chunks[0];
      RemainderLength(b, c.chunkSize);
      ExceedsMeans(c, total, offset + |b| - |Left(c, b)|, Left(c, b), chunks[1..]);
    }
  }

  lemma {:induction false} RemainderLength(b: bytes, size: int)
    requires size > 0
    ensures |Remainder(b, size)| == |b| % size
  {
    if |b| >= size {
      RemainderLength(b[size..], size);
      DropDivisor(|b|, size);
    }
  }

  lemma DropDivisor(n: int, size: int)
    requires size > 0
    ensures (n - size) % size == n % size
  {
    var q, r := n / size, n % size;
    assert n - size == (q - 1) * size + r;
    QuotientUnique(n - size, size, q - 1, r);
  }

  lemma QuotientUnique(n: int, size: int, q: int, r: int)
    requires size > 0 && n == q * size + r && 0 <= r < size
    ensures n % size == r
  {
    var d := n / size - q;
    assert d * size == r - n % size;
    if d != 0 { assert false; }
  }

  /** With no part allowed and no negative size announced, any piece is refused. */
  lemma {:induction false} RefusesWithoutParts(c: Settings, maxParts: int, total: int, buffer: bytes, chunks: seq<bytes>)
    requires c.chunkSize > 0 && maxParts < 1 && total >= 0
    ensures Refuses(c, maxParts, total, 0, buffer, chunks) <==> Rechunk(c, buffer, chunks) != []
    decreases |chunks|
  {
    if chunks != [] {
      var b := buffer + chunks[0];
      if !SendsWhole(c, |b|) && |b| < c.chunkSize { RefusesWithoutParts(c, maxParts, total, b, chunks[1..]); }
    }
  }

  /** With parts allowed and no negative size announced, a refused stream is too long by more than a chunk size, and holds
      a chunk longer than that, which may not be sent as one piece. */
  lemma {:induction false} RefusesOnlyLong(c: Settings, maxParts: int, total: int, offset: int, buffer: bytes, chunks: seq<bytes>)
    returns (i: nat)
    requires c.chunkSize > 0 && maxParts >= 1 && offset <= total && |buffer| < c.chunkSize
    requires Refuses(c, maxParts, total, offset, buffer, chunks)
    ensures !c.allowBigger && offset + |buffer| + |Concat(chunks)| > total + c.chunkSize
    ensures i < |chunks| && |chunks[i]| > c.chunkSize
    decreases |chunks|
  {
    var b := buffer + chunks[0];
    RemainderLength(b, c.chunkSize);
    if PieceRefused(c, maxParts, total, offset, b) {
      i := 0;
      if |chunks[0]| <= c.chunkSize { DropDivisor(|b|, c.chunkSize); }
    } else {
      i := RefusesOnlyLong(c, maxParts, total, offset + |b| - |Left(c, b)|, Left(c, b), chunks[1..]);
      i := i + 1;
    }
  }

  /** With a negative size announced the first piece is refused, if the first chunk has one to be sent. */
  lemma NegativeRefused(c: Settings, maxParts: int, total: int, chunks: seq<bytes>)
    requires c.chunkSize > 0 && total < 0
    ensures Refuses(c, maxParts, total, 0, [], chunks) <==>
      chunks != [] && (SendsWhole(c, |chunks[0]|) || |chunks[0]| >= c.chunkSize)
  {
    if chunks != [] {
      assert [] + chunks[0] == chunks[0];
      RemainderLength(chunks[0], c.chunkSize);
      if |chunks[0]| >= c.chunkSize { RemainderBelow(chunks[0], c.chunkSize); }
    }
  }

  /** A stream of one chunk that may not be sent as one piece: it is refused exactly when its last full piece starts
      past the end. */
  lemma OneChunkRefused(c: Settings, maxParts: int, total: nat, chunk: bytes)
    requires c.chunkSize > 0 && maxParts >= 1 && !c.allowBigger
    ensures Refuses(c, maxParts, total, 0, [], [chunk]) <==>
      |chunk| >= c.chunkSize && total < |chunk| - |chunk| % c.chunkSize - c.chunkSize
  {
    assert [] + chunk == chunk && [chunk][1..] == [];
    RemainderLength(chunk, c.chunkSize);
  }

  /** Three bytes announced and sent in fours: eight in one chunk are refused, seven are not. */
  lemma EightRefused(eight: bytes, seven: bytes)
    requires |eight| == 8 && |seven| == 7
    ensures Refuses(Settings(4, false, false), 1, 3, 0, [], [eight])
    ensures !Refuses(Settings(4, false, false), 1, 3, 0, [], [seven])
  {
    OneChunkRefused(Settings(4, false, false), 1, 3, eight);
    OneChunkRefused(Settings(4, false, false), 1, 3, seven);
  }

  lemma SendStep(p: Params, m: Mem, m1: Mem, id: int, total: int, sent: seq<bytes>, piece: bytes)
    requires MemOk(m) && Sending(m, m1, id, total, sent)
    ensures var r := UploadChunk(p, m, id, |Concat(sent)|, piece);
      && SameElsewhere(r.0, m1, id)
      && (r.1.Ok? <==> |Concat(sent)| <= total && p.maxParts >= 1)
      && (r.1.Raised? ==> RefusedChunk(r.1.error))
      && (r.1.Ok? ==> Sending(r.0, m1, id, total, sent + [piece]))
  {
    hide StoreOf, After, CallsOf, Concat, Consistent, Good;
    StoreSnoc(total, sent, piece);
    assert (sent + [piece])[..|sent + [piece]| - 1] == sent;
    if |Concat(sent)| <= total { OneInterval(total, sent + [piece]); }
    assert m.temps[id].store == StoreOf(total, sent);
    PutTwice(m1.temps, id, m.temps[id], UploadChunk(p, m, id, |Concat(sent)|, piece).0.temps[id]);
  }

  lemma PutTwice<T>(m: map<int, T>, id: int, x: T, y: T)
    ensures m[id := x][id := y] == m[id := y]
  {
  }

  /** All of a stream of the announced length has arrived: the upload is complete and reads back as the stream. */
  lemma SentAll(total: int, sent: seq<bytes>)
    requires |Concat(sent)| == total
    ensures var st := StoreOf(total, sent);
      Complete(st, total) && Pieces(st.slices, 0).Ok? && Joined(Pieces(st.slices, 0).value) == Concat(sent)
  {
    var calls := CallsOf(sent);
    var st := Run(total, true, calls);
    if sent != [] {
      var before := sent[..|sent| - 1];
      assert sent == before + [sent[|sent| - 1]];
      ConcatSnoc(before, sent[|sent| - 1]);
      OneInterval(total, sent);
      assert st.intervals == [Interval(0, total)];
      assert st.intervals[1..] == [];
    }
    assert Filled(st.intervals) == total;
    CallsAgree(Concat(sent), sent);
    RebuildsFile(Concat(sent), calls);
  }

  /** The pieces fall into those sent and those to come. */
  ghost predicate SentSoFar(c: Settings, chunks: seq<bytes>, sent: seq<bytes>, toCome: seq<bytes>)
    requires c.chunkSize > 0
  {
    Rechunk(c, [], chunks) == sent + toCome
  }

  lemma TooLong(c: Settings, chunks: seq<bytes>, sent: seq<bytes>, toCome: seq<bytes>)
    requires c.chunkSize > 0 && SentSoFar(c, chunks, sent, toCome)
    ensures |Concat(sent)| <= |Concat(chunks)|
    ensures toCome == [] ==> Concat(sent) == Concat(chunks) && sent == Rechunk(c, [], chunks)
  {
    RechunkConcat(c, [], chunks);
    ConcatAppend(sent, toCome);
    assert [] + Concat(chunks) == Concat(chunks);
    if toCome == [] { assert sent + toCome == sent; }
  }

  lemma NextPiece(c: Settings, chunks: seq<bytes>, sent: seq<bytes>, piece: bytes, rest: seq<bytes>)
    requires c.chunkSize > 0 && SentSoFar(c, chunks, sent, [piece] + rest)
    ensures SentSoFar(c, chunks, sent + [piece], rest)
    ensures Rechunk(c, [], chunks) != []
  {
    assert sent + ([piece] + rest) == (sent + [piece]) + rest;
  }

  lemma NextBlock(c: Settings, buffer: bytes, rest: seq<bytes>)
    requires c.chunkSize > 0
    ensures |buffer| >= c.chunkSize ==>
      Blocks(buffer, c.chunkSize) + rest == [buffer[..c.chunkSize]] + (Blocks(buffer[c.chunkSize..], c.chunkSize) + rest)
    ensures |buffer| >= c.chunkSize ==> Remainder(buffer, c.chunkSize) == Remainder(buffer[c.chunkSize..], c.chunkSize)
    ensures |buffer| < c.chunkSize ==> Blocks(buffer, c.chunkSize) + rest == rest && Remainder(buffer, c.chunkSize) == buffer
  {
    if |buffer| >= c.chunkSize {
      Assoc([buffer[..c.chunkSize]], Blocks(buffer[c.chunkSize..], c.chunkSize), rest);
    } else {
      Units(rest);
    }
  }

  method SendBuffer(backend: InMemBackend, ghost m1: Mem, id: int, ghost total: int, ghost sent: seq<bytes>, offset: int, piece: bytes)
    returns (r: Outcome<int, Error>)
    requires backend.Valid() && Sending(backend.Abs(), m1, id, total, sent) && offset == |Concat(sent)|
    modifies backend.Footprint()
    ensures backend.Valid() && SameElsewhere(backend.Abs(), m1, id)
    ensures r.Ok? <==> offset <= total && backend.params.maxParts >= 1
    ensures r.Raised? ==> RefusedChunk(r.error)
    ensures r.Ok? ==> Sending(backend.Abs(), m1, id, total, sent + [piece])
  {
    ghost var before := backend.Abs();
    r := backend.UploadChunkAt(id, offset, piece);
    hide UploadChunk, Sending, SameElsewhere, MemOk, Concat;
    SendStep(backend.params, before, m1, id, total, sent, piece);
  }

  /** Send full pieces while the buffer holds one. */
  method SendFull(backend: InMemBackend, c: Settings, ghost m1: Mem, id: int, ghost total: int, ghost chunks: seq<bytes>,
                  ghost sent: seq<bytes>, ghost rest: seq<bytes>, offset: int, buffer: bytes)
    returns (r: Outcome<(), Error>, ghost sent': seq<bytes>, offset': int, buffer': bytes)
    requires c.chunkSize > 0 && backend.Valid() && Sending(backend.Abs(), m1, id, total, sent) && offset == |Concat(sent)|
    requires SentSoFar(c, chunks, sent, Blocks(buffer, c.chunkSize) + rest)
    modifies backend.Footprint()
    ensures backend.Valid() && SameElsewhere(backend.Abs(), m1, id)
    ensures r.Ok? ==> Sending(backend.Abs(), m1, id, total, sent')
    ensures offset' == |Concat(sent')| && SentSoFar(c, chunks, sent', if r.Ok? then rest else Blocks(buffer', c.chunkSize) + rest)
    ensures r.Ok? ==> buffer' == Remainder(buffer, c.chunkSize) && offset' == offset + |buffer| - |buffer'|
    ensures r.Raised? <==> FullRefused(c, backend.params.maxParts, total, offset, buffer)
    ensures r.Ok? ==> sent' == sent || backend.params.maxParts >= 1
    ensures r.Raised? ==> offset' > total || (backend.params.maxParts < 1 && Rechunk(c, [], chunks) != [])
    ensures r.Raised? ==> RefusedChunk(r.error)
  {
    hide Sending, Concat, Rechunk, SentSoFar, Remainder, Blocks, SameElsewhere;
    sent', offset', buffer' := sent, offset, buffer;
    SendingElsewhere(backend.Abs(), m1, id, total, sent);
    while |buffer'| >= c.chunkSize
      invariant backend.Valid() && Sending(backend.Abs(), m1, id, total, sent')
      invariant SameElsewhere(backend.Abs(), m1, id)
      invariant offset' == |Concat(sent')| && (sent' == sent || backend.params.maxParts >= 1)
      invariant SentSoFar(c, chunks, sent', Blocks(buffer', c.chunkSize) + rest)
      invariant Remainder(buffer', c.chunkSize) == Remainder(buffer, c.chunkSize)
      invariant offset' + |buffer'| == offset + |buffer| && |buffer'| <= |buffer|
      invariant |buffer'| == |buffer| || (offset' - c.chunkSize <= total && backend.params.maxParts >= 1)
    {
      NextBlock(c, buffer', rest);
      var piece := buffer'[..c.chunkSize];
      NextPiece(c, chunks, sent', piece, Blocks(buffer'[c.chunkSize..], c.chunkSize) + rest);
      ConcatSnoc(sent', piece);
      var sentOk := SendBuffer(backend, m1, id, total, sent', offset', piece);
      if sentOk.Raised? {
        RemainderBelow(buffer', c.chunkSize);
        r := Raised(sentOk.error);
        return;
      }
      sent' := sent' + [piece];
      offset' := offset' + |piece|;
      buffer' := buffer'[c.chunkSize..];
    }
    NextBlock(c, buffer', rest);
    r := Ok(());
  }

  lemma RemainderBelow(b: bytes, size: int)
    requires 0 < size <= |b|
    ensures |Remainder(b, size)| <= |b| - size
  {
    RemainderLength(b[size..], size);
  }

  lemma SendingElsewhere(m: Mem, m1: Mem, id: int, total: int, sent: seq<bytes>)
    requires Sending(m, m1, id, total, sent)
    ensures SameElsewhere(m, m1, id)
  {
  }

  lemma NotAccepted(p: Params, m: Mem, c: Settings, id: int, total: int, hash: Hash, chunks: seq<bytes>,
                    sent: seq<bytes>, toCome: seq<bytes>)
    requires c.chunkSize > 0 && SentSoFar(c, chunks, sent, toCome)
    requires |Concat(sent)| > total || (p.maxParts < 1 && Rechunk(c, [], chunks) != [])
    ensures !Accepts(p, m, c, id, total, hash, chunks)
  {
    TooLong(c, chunks, sent, toCome);
  }

  lemma NextChunk(c: Settings, buffer: bytes, chunks: seq<bytes>, i: nat)
    requires c.chunkSize > 0 && i < |chunks|
    ensures var b := buffer + chunks[i];
      Rechunk(c, buffer, chunks[i..]) ==
        if SendsWhole(c, |b|) then [b] + Rechunk(c, [], chunks[i + 1..])
        else Blocks(b, c.chunkSize) + Rechunk(c, Remainder(b, c.chunkSize), chunks[i + 1..])
  {
    assert chunks[i..][1..] == chunks[i + 1..];
  }

  /** An upload that goes through stores exactly the stream, under its hash, and frees its placeholder. */
  ghost function Stored(m: Mem, total: int, hash: Hash, chunks: seq<bytes>): Mem {
    Mem(m.size + total, m.sizeMax + total, m.files[hash := Concat(chunks)], m.temps)
  }

  lemma FinishUpload(p: Params, m: Mem, m0: Mem, c: Settings, id: int, total: int, hash: Hash, chunks: seq<bytes>, sent: seq<bytes>)
    requires c.chunkSize > 0 && SentSoFar(c, chunks, sent, []) && id !in m0.temps
    requires Sending(m, Opened(m0, id, total), id, total, sent)
    requires |Concat(sent)| == total && p.digest(Concat(chunks)) == hash
    ensures Terminate(p, m, hash, id) == (Stored(m0, total, hash, chunks), Ok(()))
  {
    hide StoreOf, Concat, Complete, Pieces, Joined, SentSoFar;
    TooLong(c, chunks, sent, []);
    SentAll(total, sent);
    PutThenDrop(m0.temps, id, Temp(total, Empty()), m.temps[id]);
  }

  lemma PutThenDrop<T>(m: map<int, T>, id: int, x: T, y: T)
    requires id !in m
    ensures m[id := x][id := y] - {id} == m
  {
  }

  /** Cancelling gives back the placeholder and its room. */
  lemma Cancelled(m: Mem, m0: Mem, hash: Hash, id: nat, total: int, sent: seq<bytes>)
    requires id !in m0.temps && Sending(m, Opened(m0, id, total), id, total, sent)
    ensures Delete(m, hash, id).0 == m0
    ensures Delete(m, hash, id).1 == if hash in m0.files then Raised(UploadedMeanwhile) else Ok(())
    ensures Delete(m, hash, id).1.Raised? ==> !RefusedChunk(Delete(m, hash, id).1.error)
  {
    PutThenDrop(m0.temps, id, Temp(total, Empty()), m.temps[id]);
  }

  method Abandon(backend: InMemBackend, hash: Hash, id: nat, error: ClientError, ghost m0: Mem, ghost total: int,
                 ghost sent: seq<bytes>)
    returns (r: Outcome<(), ClientError>)
    requires backend.Valid() && !LeavesPlaceholder(error)
    requires id !in m0.temps && Sending(backend.Abs(), Opened(m0, id, total), id, total, sent)
    modifies backend
    ensures backend.Valid() && backend.Footprint() <= old(backend.Footprint())
    ensures r.Raised? && backend.Abs() == m0 && !LeavesPlaceholder(r.error) && r.error == GivenUpWith(m0, hash, error)
  {
    Cancelled(backend.Abs(), m0, hash, id, total, sent);
    hide Sending;
    var d := backend.DeleteResource(hash, id);
    r := if d.Raised? then Raised(FromBackend(d.error)) else Raised(error);
  }

  /** The three-way choice made when a chunk has been appended to the buffer. */
  method SendChunk(backend: InMemBackend, c: Settings, ghost hash: Hash, ghost m1: Mem, id: int, ghost total: int, ghost chunks: seq<bytes>,
                   ghost i: nat, ghost before: bytes, ghost sent: seq<bytes>, offset: int, buffer: bytes)
    returns (r: Outcome<(), Error>, ghost sent': seq<bytes>, offset': int, buffer': bytes)
    requires c.chunkSize > 0 && i < |chunks| && buffer == before + chunks[i]
    requires backend.Valid() && Sending(backend.Abs(), m1, id, total, sent) && offset == |Concat(sent)|
    requires SentSoFar(c, chunks, sent, Rechunk(c, before, chunks[i..]))
    modifies backend.Footprint()
    ensures backend.Valid() && SameElsewhere(backend.Abs(), m1, id)
    ensures r.Ok? ==> Sending(backend.Abs(), m1, id, total, sent') && offset' == |Concat(sent')|
    ensures r.Ok? ==> SentSoFar(c, chunks, sent', Rechunk(c, buffer', chunks[i + 1..]))
    ensures r.Ok? ==> sent' == sent || backend.params.maxParts >= 1
    ensures r.Raised? ==> forall m: Mem :: !Accepts(backend.params, m, c, id, total, hash, chunks)
    ensures r.Raised? ==> RefusedChunk(r.error)
    ensures r.Raised? <==> PieceRefused(c, backend.params.maxParts, total, offset, buffer)
    ensures r.Ok? ==> buffer' == Left(c, buffer) && offset' == offset + |buffer| - |buffer'|
  {
    hide Sending, Concat, Rechunk, SentSoFar, Blocks, Remainder, SameElsewhere, Accepts, FullRefused;
    NextChunk(c, before, chunks, i);
    if (|buffer| < c.chunkSize && c.allowSmaller) || (|buffer| > c.chunkSize && c.allowBigger) {
      NextPiece(c, chunks, sent, buffer, Rechunk(c, [], chunks[i + 1..]));
      ConcatSnoc(sent, buffer);
      var whole := SendBuffer(backend, m1, id, total, sent, offset, buffer);
      if whole.Raised? {
        forall m: Mem ensures !Accepts(backend.params, m, c, id, total, hash, chunks) {
          NotAccepted(backend.params, m, c, id, total, hash, chunks, sent, [buffer] + Rechunk(c, [], chunks[i + 1..]));
        }
        return Raised(whole.error), sent, offset, buffer;
      }
      r, sent', offset', buffer' := Ok(()), sent + [buffer], offset + |buffer|, [];
    } else {
      ghost var rest := Rechunk(c, Remainder(buffer, c.chunkSize), chunks[i + 1..]);
      r, sent', offset', buffer' := SendFull(backend, c, m1, id, total, chunks, sent, rest, offset, buffer);
      if r.Raised? {
        forall m: Mem ensures !Accepts(backend.params, m, c, id, total, hash, chunks) {
          NotAccepted(backend.params, m, c, id, total, hash, chunks, sent', Blocks(buffer', c.chunkSize) + rest);
        }
      }
    }
  }

  /** Upload a stream of chunks. It succeeds exactly when the stream has the announced length and hash and there
      is room for it; then the stored file is the stream. The placeholder, and the room reserved for it, are left behind
      exactly when the upload was let in and a piece of the stream comes to be refused; otherwise a failing upload
      leaves everything as it was. */
  method HandleUpload(backend: InMemBackend, c: Settings, hash: Hash, id: nat, total: int, chunks: seq<bytes>)
    returns (r: Outcome<(), ClientError>)
    requires c.chunkSize > 0 && backend.Valid()
    modifies backend, backend.Footprint()
    ensures backend.Valid() && fresh(backend.Footprint() - old(backend.Footprint()))
    ensures r.Ok? <==> Accepts(backend.params, old(backend.Abs()), c, id, total, hash, chunks)
    ensures r.Ok? ==> backend.Abs() == Stored(old(backend.Abs()), total, hash, chunks)
    ensures r.Raised? && LeavesPlaceholder(r.error) <==>
      && old(backend.Abs()).sizeMax + total <= backend.params.allowedMemory && id !in old(backend.Abs()).temps
      && Refuses(c, backend.params.maxParts, total, 0, [], chunks)
    ensures var m, p := old(backend.Abs()), backend.params;
      if m.sizeMax + total > p.allowedMemory then r == Raised(FromBackend(NotEnoughSpace(total, p.allowedMemory - m.sizeMax)))
      else if id in m.temps then r == Raised(FromBackend(AlreadyUploading))
      else Answers(p, m, c, total, hash, chunks, r)
    ensures r.Raised? && !LeavesPlaceholder(r.error) ==> backend.Abs() == old(backend.Abs())
    ensures r.Raised? && LeavesPlaceholder(r.error) ==>
      id !in old(backend.Abs()).temps && SameElsewhere(backend.Abs(), Opened(old(backend.Abs()), id, total), id)
  {
    ghost var m0, p := backend.Abs(), backend.params;
    var prepared := backend.PreparePlaceholder(id, total);
    if prepared.Raised? {
      return Raised(FromBackend(prepared.error));
    }
    ghost var m1 := backend.Abs();
    ghost var sent: seq<bytes>;
    var offset, hashed;
    r, sent, offset, hashed := SendStream(backend, c, hash, m0, m1, id, total, chunks);
    hide Sending, Concat, Rechunk, SentSoFar, SameElsewhere, Refuses, Exceeds;
    if r.Raised? {
      return;
    }
    TooLong(c, chunks, sent, []);
    if backend.params.digest(hashed) != hash {
      r := Abandon(backend, hash, id, HashMismatch, m0, total, sent);
      return;
    }
    if total != offset {
      r := Abandon(backend, hash, id, LengthMismatch(total, offset), m0, total, sent);
      return;
    }
    FinishUpload(p, backend.Abs(), m0, c, id, total, hash, chunks, sent);
    var _ := backend.UploadTerminate(hash, id);
    r := Ok(());
  }

  /** The sending loop, up to and including the last, possibly short, piece. */
  method SendStream(backend: InMemBackend, c: Settings, hash: Hash, ghost m0: Mem, ghost m1: Mem, id: nat, total: int, chunks: seq<bytes>)
    returns (r: Outcome<(), ClientError>, ghost sent: seq<bytes>, offset: int, hashed: bytes)
    requires c.chunkSize > 0 && backend.Valid() && backend.Abs() == m1
    requires id !in m0.temps && m1 == Opened(m0, id, total)
    modifies backend, backend.Footprint()
    ensures backend.Valid() && backend.Footprint() <= old(backend.Footprint())
    ensures r.Raised? ==> forall m: Mem :: !Accepts(backend.params, m, c, id, total, hash, chunks)
    ensures r.Raised? && LeavesPlaceholder(r.error) <==> Refuses(c, backend.params.maxParts, total, 0, [], chunks)
    ensures r.Raised? && !LeavesPlaceholder(r.error) ==>
      var e := Exceeds(c, total, 0, [], chunks); e.Some? && r.error == GivenUpWith(m0, hash, LengthExceeded(total, e.value))
    ensures r.Ok? ==> Exceeds(c, total, 0, [], chunks).None?
    ensures r.Raised? ==> if LeavesPlaceholder(r.error) then SameElsewhere(backend.Abs(), m1, id) else backend.Abs() == m0
    ensures r.Ok? ==> Sending(backend.Abs(), m1, id, total, sent) && SentSoFar(c, chunks, sent, [])
    ensures r.Ok? ==> offset == |Concat(sent)| && hashed == Concat(chunks)
    ensures r.Ok? ==> (sent == [] || backend.params.maxParts >= 1)
  {
    hide Sending, Concat, Rechunk, SentSoFar, Blocks, Remainder, SameElsewhere, Accepts, SendsWhole, StoreOf, Consistent, Good, MemOk,
      Refuses, PieceRefused, Left, Exceeds;
    ghost var refused := Refuses(c, backend.params.maxParts, total, 0, [], chunks);
    ghost var exceeds := Exceeds(c, total, 0, [], chunks);
    assert chunks[0..] == chunks;
    var buffer: bytes, i := [], 0;
    offset, hashed, sent := 0, [], [];
    StartSending(m1, id, total, c, chunks);
    while i < |chunks|
      invariant 0 <= i <= |chunks|
      invariant backend.Valid() && backend.Footprint() == old(backend.Footprint())
      invariant Sending(backend.Abs(), m1, id, total, sent) && SameElsewhere(backend.Abs(), m1, id)
      invariant offset == |Concat(sent)| && hashed == Concat(chunks[..i])
      invariant SentSoFar(c, chunks, sent, Rechunk(c, buffer, chunks[i..]))
      invariant sent == [] || backend.params.maxParts >= 1
      invariant refused == Refuses(c, backend.params.maxParts, total, offset, buffer, chunks[i..])
      invariant exceeds == Exceeds(c, total, offset, buffer, chunks[i..])
    {
      ExceedsNext(c, total, offset, buffer, chunks, i);
      RefusesNext(c, backend.params.maxParts, total, offset, buffer, chunks, i);
      var sentOk;
      sentOk, sent, offset, buffer := SendChunk(backend, c, hash, m1, id, total, chunks, i, buffer, sent, offset, buffer + chunks[i]);
      if sentOk.Raised? {
        return Raised(FromBackend(sentOk.error)), sent, offset, hashed;
      }
      if offset > total {
        forall m: Mem ensures !Accepts(backend.params, m, c, id, total, hash, chunks) {
          NotAccepted(backend.params, m, c, id, total, hash, chunks, sent, Rechunk(c, buffer, chunks[i + 1..]));
        }
        r := Abandon(backend, hash, id, LengthExceeded(total, offset), m0, total, sent);
        return;
      }
      HashedSoFar(chunks, i);
      hashed := hashed + chunks[i];
      i := i + 1;
    }
    assert chunks[..i] == chunks;
    LastPiece(c, buffer, chunks[i..]);
    RefusesLast(c, backend.params.maxParts, total, offset, buffer, chunks[i..]);
    ExceedsLast(c, total, offset, buffer, chunks[i..]);
    if buffer != [] {
      NextPiece(c, chunks, sent, buffer, []);
      ConcatSnoc(sent, buffer);
      var last := SendBuffer(backend, m1, id, total, sent, offset, buffer);
      if last.Raised? {
        forall m: Mem ensures !Accepts(backend.params, m, c, id, total, hash, chunks) {
          NotAccepted(backend.params, m, c, id, total, hash, chunks, sent, [buffer]);
        }
        return Raised(FromBackend(last.error)), sent, offset, hashed;
      }
      sent, offset, buffer := sent + [buffer], offset + |buffer|, [];
    }
    r := Ok(());
  }

  lemma RefusesNext(c: Settings, maxParts: int, total: int, offset: int, buffer: bytes, chunks: seq<bytes>, i: nat)
    requires c.chunkSize > 0 && i < |chunks|
    ensures var b := buffer + chunks[i];
      var next := offset + |b| - |Left(c, b)|;
      Refuses(c, maxParts, total, offset, buffer, chunks[i..]) <==>
        || PieceRefused(c, maxParts, total, offset, b)
        || (next <= total && Refuses(c, maxParts, total, next, Left(c, b), chunks[i + 1..]))
  {
    assert chunks[i..][1..] == chunks[i + 1..];
  }

  lemma ExceedsNext(c: Settings, total: int, offset: int, buffer: bytes, chunks: seq<bytes>, i: nat)
    requires c.chunkSize > 0 && i < |chunks|
    ensures var b := buffer + chunks[i];
      var next := offset + |b| - |Left(c, b)|;
      Exceeds(c, total, offset, buffer, chunks[i..]) == if next > total then Some(next) else Exceeds(c, total, next, Left(c, b), chunks[i + 1..])
  {
    assert chunks[i..][1..] == chunks[i + 1..];
  }

  lemma ExceedsLast(c: Settings, total: int, offset: int, buffer: bytes, rest: seq<bytes>)
    requires c.chunkSize > 0 && rest == []
    ensures Exceeds(c, total, offset, buffer, rest) == None
  {
  }

  lemma RefusesLast(c: Settings, maxParts: int, total: int, offset: int, buffer: bytes, rest: seq<bytes>)
    requires c.chunkSize > 0 && rest == []
    ensures Refuses(c, maxParts, total, offset, buffer, rest) <==> buffer != [] && (maxParts < 1 || offset > total)
  {
  }

  lemma LastPiece(c: Settings, buffer: bytes, rest: seq<bytes>)
    requires c.chunkSize > 0 && rest == []
    ensures Rechunk(c, buffer, rest) == if buffer == [] then [] else [buffer] + []
  {
  }

  lemma HashedSoFar(chunks: seq<bytes>, i: nat)
    requires i < |chunks|
    ensures Concat(chunks[..i + 1]) == Concat(chunks[..i]) + chunks[i]
  {
    assert chunks[..i + 1] == chunks[..i] + [chunks[i]];
    ConcatSnoc(chunks[..i], chunks[i]);
  }

  lemma StartSending(m1: Mem, id: int, total: int, c: Settings, chunks: seq<bytes>)
    requires c.chunkSize > 0 && id in m1.temps && m1.temps[id] == Temp(total, Empty())
    ensures Sending(m1, m1, id, total, []) && SameElsewhere(m1, m1, id)
    ensures SentSoFar(c, chunks, [], Rechunk(c, [], chunks[0..])) && Concat(chunks[..0]) == [] && |Concat<byte>([])| == 0
  {
    assert chunks[0..] == chunks;
    Units(Rechunk(c, [], chunks));
    assert m1.temps[id := Temp(total, StoreOf(total, []))] == m1.temps;
    assert m1.temps[id := m1.temps[id]] == m1.temps;
  }

  // ----- download

  /** What a download in steps of `size` yields. */
  function Windows(data: bytes, size: int, offset: nat): seq<bytes>
    requires size > 0
    decreases |data| - offset
  {
    if offset >= |data| then [] else [Window(data, offset, size)] + Windows(data, size, offset + size)
  }

  /** The chunks of a download are full-sized but for the last, and join to the file. */
  lemma {:induction false} WindowsConcat(data: bytes, size: int, offset: nat)
    requires size > 0 && offset <= |data|
    ensures Concat(Windows(data, size, offset)) == data[offset..]
    ensures forall i :: 0 <= i < |Windows(data, size, offset)| - 1 ==> |Windows(data, size, offset)[i]| == size
    ensures forall i :: 0 <= i < |Windows(data, size, offset)| ==> 0 < |Windows(data, size, offset)[i]| <= size
    decreases |data| - offset
  {
    if offset < |data| {
      WindowsConcatStep(data, size, offset);
      if offset + size <= |data| { WindowsConcat(data, size, offset + size); }
    }
  }

  lemma WindowsConcatStep(data: bytes, size: int, offset: nat)
    requires size > 0 && offset < |data|
    ensures Windows(data, size, offset) == [Window(data, offset, size)] + Windows(data, size, offset + size)
    ensures Concat(Windows(data, size, offset)) == Window(data, offset, size) + Concat(Windows(data, size, offset + size))
    ensures offset + size <= |data| ==> Window(data, offset, size) + data[offset + size..] == data[offset..]
    ensures offset + size <= |data| ==> |Window(data, offset, size)| == size
    ensures offset + size > |data| ==> Windows(data, size, offset + size) == [] && Concat(Windows(data, size, offset)) == data[offset..]
  {
    var w, rest := Window(data, offset, size), Windows(data, size, offset + size);
    assert ([w] + rest)[1..] == rest;
    if offset + size <= |data| {
      assert w == data[offset..offset + size] || offset + size == |data|;
      assert w + data[offset + size..] == data[offset..];
    } else {
      assert rest == [] && w + Concat(rest) == w;
    }
  }

  method HandleDownload(backend: InMemBackend, hash: Hash, chunkSize: int)
    returns (r: Outcome<(), ClientError>, yielded: seq<bytes>)
    requires chunkSize > 0
    ensures hash !in backend.files ==> r == Raised(FromBackend(NotExistingContent)) && yielded == []
    ensures hash in backend.files ==>
      && yielded == Windows(backend.files[hash], chunkSize, 0)
      && Concat(yielded) == backend.files[hash]
      && r == if backend.params.digest(backend.files[hash]) == hash then Ok(()) else Raised(HashMismatch)
  {
    yielded := [];
    var size := backend.SizeOfContent(hash);
    if size.Raised? {
      return Raised(FromBackend(size.error)), yielded;
    }
    hide Windows, Window, Concat, Downloading;
    ghost var data := backend.files[hash];
    var offset, totalSize := 0, 0;
    var hashed: bytes := [];
    DownloadStart(data, chunkSize);
    while offset < size.value
      invariant 0 <= offset && totalSize <= |data|
      invariant Downloading(data, chunkSize, offset, yielded, totalSize, hashed)
    {
      var chunk := backend.DownloadChunk(hash, offset, chunkSize);
      if chunk.Raised? {
        assert false;  // the file cannot vanish between the size query and this one
      }
      WindowStep(data, chunkSize, offset, yielded, totalSize, hashed);
      totalSize := totalSize + |chunk.value|;
      if totalSize > size.value {
        assert false;  // chunks never exceed the file
      }
      yielded := yielded + [chunk.value];
      hashed := hashed + chunk.value;
      offset := offset + chunkSize;
    }
    DownloadEnd(data, chunkSize, offset, yielded, totalSize, hashed);
    if backend.params.digest(hashed) != hash {
      return Raised(HashMismatch), yielded;
    }
    if totalSize != size.value {
      assert false;  // nor fall short of it
    }
    r := Ok(());
  }

  ghost predicate Downloading(data: bytes, size: int, offset: nat, yielded: seq<bytes>, totalSize: int, hashed: bytes)
    requires size > 0
  {
    && totalSize == Min(offset, |data|)
    && Windows(data, size, 0) == yielded + Windows(data, size, offset)
    && hashed == Concat(yielded) == data[..totalSize]
  }

  lemma DownloadStart(data: bytes, size: int)
    requires size > 0
    ensures Downloading(data, size, 0, [], 0, [])
  {
    Units(Windows(data, size, 0));
  }

  lemma WindowStep(data: bytes, size: int, offset: nat, yielded: seq<bytes>, totalSize: int, hashed: bytes)
    requires size > 0 && offset < |data| && Downloading(data, size, offset, yielded, totalSize, hashed)
    ensures var w := Window(data, offset, size);
      && totalSize + |w| <= |data|
      && Downloading(data, size, offset + size, yielded + [w], totalSize + |w|, hashed + w)
  {
    var w := Window(data, offset, size);
    ConcatSnoc(yielded, w);
    Assoc(yielded, [w], Windows(data, size, offset + size));
    assert data[..offset] + w == data[..Min(offset + size, |data|)];
  }

  lemma DownloadEnd(data: bytes, size: int, offset: nat, yielded: seq<bytes>, totalSize: int, hashed: bytes)
    requires size > 0 && offset >= |data| && Downloading(data, size, offset, yielded, totalSize, hashed)
    ensures yielded == Windows(data, size, 0) && hashed == Concat(yielded) == data && totalSize == |data|
  {
    Units(yielded);
    assert data[..|data|] == data;
  }

  /** A stream uploaded in any chunks, re-chunked in any way, comes back whole through a download of any step. */
  method RoundTrip(backend: InMemBackend, c: Settings, hash: Hash, id: nat, total: int, chunks: seq<bytes>, step: int)
    returns (r: Outcome<(), ClientError>, yielded: seq<bytes>)
    requires c.chunkSize > 0 && step > 0 && backend.Valid()
    requires Accepts(backend.params, backend.Abs(), c, id, total, hash, chunks)
    modifies backend, backend.Footprint()
    ensures r.Ok? && Concat(yielded) == Concat(chunks)
  {
    var uploaded := HandleUpload(backend, c, hash, id, total, chunks);
    r, yielded := HandleDownload(backend, hash, step);
  }
}
