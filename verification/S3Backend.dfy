/** Multipart uploads in chunks of a fixed size: which chunks are accepted, which part each becomes, and when the
    number of parts says that the file is whole. */
module FixedChunk {
  import opened Common
  import Client

  datatype ConstraintError = MaxTotalSize | AlignedChunkExpected | FixedChunkSizeExpected

  /** Only the last, short part of a file may be given by a chunk of another size. */
  function EnsureCompatible(offset: int, size: int, fixed: int, total: int): Outcome<(), ConstraintError>
    requires fixed > 0
  {
    if offset + size > total then Raised(MaxTotalSize)
    else if offset % fixed != 0 then Raised(AlignedChunkExpected)
    else if size != fixed && total - offset >= fixed then Raised(FixedChunkSizeExpected)
    else Ok(())
  }

  /** The number of parts of a file. */
  function Parts(total: int, fixed: int): int
    requires fixed > 0
  {
    total / fixed + (if total % fixed != 0 then 1 else 0)
  }

  // ----- the part table

  /** The largest number of parts the object service takes. */
  const MAX_PARTS := 10000

  datatype Chunk = Chunk(offset: int, data: bytes)

  datatype UploadError =
    | Constraint(error: ConstraintError)
    | ServiceRefused
    | NotExistingPlaceholder
    | UnknownUpload
    | AlreadyUploadedContent
    | AlreadyUploadingContent
    | MissingChunks(got: nat, expected: int)
    | PartNotFound(part: int)
    | NotExistingContent

  /** The table once a chunk has been taken in; a later chunk replaces an earlier one in the same place. */
  function PutPart(table: map<int, bytes>, total: int, fixed: int, c: Chunk): Outcome<map<int, bytes>, UploadError>
    requires fixed > 0
  {
    var fits := EnsureCompatible(c.offset, |c.data|, fixed, total);
    if fits.Raised? then Raised(Constraint(fits.error))
    else if !(0 <= c.offset / fixed < MAX_PARTS) then Raised(ServiceRefused)
    else Ok(table[c.offset / fixed := c.data])
  }

  /** Which chunks are taken in, and as which part: those that end within the file, begin at a multiple of the fixed size,
      have that size or lie in the short end, and get a part number the service takes; and how the others are refused. */
  lemma AcceptedExactly(table: map<int, bytes>, total: int, fixed: int, c: Chunk)
    requires fixed > 0
    ensures var r, fits, aligned := PutPart(table, total, fixed, c), c.offset + |c.data| <= total, c.offset % fixed == 0;
      var sized := |c.data| == fixed || total - c.offset < fixed;
      && (!fits ==> r == Raised(Constraint(MaxTotalSize)))
      && (fits && !aligned ==> r == Raised(Constraint(AlignedChunkExpected)))
      && (fits && aligned && !sized ==> r == Raised(Constraint(FixedChunkSizeExpected)))
      && (fits && aligned && sized ==>
            r == if 0 <= c.offset / fixed < 10000 then Ok(table[c.offset / fixed := c.data]) else Raised(ServiceRefused))
  {
  }

  /** The table after a run of chunks; a rejected chunk leaves it as it was. */
  function Table(total: int, fixed: int, chunks: seq<Chunk>): map<int, bytes>
    requires fixed > 0
  {
    if chunks == [] then map[]
    else
      var before := Table(total, fixed, chunks[..|chunks| - 1]);
      var r := PutPart(before, total, fixed, chunks[|chunks| - 1]);
      if r.Ok? then r.value else before
  }

  ghost predicate PartFits(k: int, size: nat, total: int, fixed: int) {
    0 <= k && k * fixed + size <= total && (size == fixed || total - k * fixed < fixed)
  }

  ghost predicate PartsOk(table: map<int, bytes>, total: int, fixed: int) {
    forall k :: k in table ==> PartFits(k, |table[k]|, total, fixed)
  }

  lemma PutKeepsPartsOk(table: map<int, bytes>, total: int, fixed: int, c: Chunk)
    requires fixed > 0 && PartsOk(table, total, fixed)
    ensures var r := PutPart(table, total, fixed, c); r.Ok? ==> PartsOk(r.value, total, fixed)
    ensures var r := PutPart(table, total, fixed, c); r.Ok? ==> c.offset / fixed * fixed == c.offset
  {
    Aligned(c.offset, fixed);
  }

  lemma Aligned(offset: int, fixed: int)
    requires fixed > 0
    ensures offset == offset / fixed * fixed + offset % fixed
  {
  }

  lemma {:induction false} TableOk(total: int, fixed: int, chunks: seq<Chunk>)
    requires fixed > 0
    ensures PartsOk(Table(total, fixed, chunks), total, fixed)
  {
    if chunks != [] {
      var before := chunks[..|chunks| - 1];
      TableOk(total, fixed, before);
      PutKeepsPartsOk(Table(total, fixed, before), total, fixed, chunks[|chunks| - 1]);
    }
  }

  /** A part lies among the parts of the file, or it is an empty part just after the last; only the part that holds
      the short end of the file may have another size than the fixed one. */
  lemma PartPlace(k: int, size: nat, total: int, fixed: int)
    requires fixed > 0 && PartFits(k, size, total, fixed)
    ensures 0 <= k <= Parts(total, fixed)
    ensures k == Parts(total, fixed) ==> total % fixed == 0 && size == 0
    ensures k < total / fixed ==> size == fixed
    ensures k == total / fixed ==> size <= total % fixed
  {
    var q := total / fixed;
    Aligned(total, fixed);
    if k > q { Times(q + 1, k, fixed); Distribute(q, fixed); }
    if k < q { Times(k + 1, q, fixed); Distribute(k, fixed); }
  }

  lemma Times(a: int, b: int, f: int)
    requires a <= b && f >= 0
    ensures a * f <= b * f
  {
  }

  lemma Distribute(a: int, f: int)
    ensures (a + 1) * f == a * f + f
  {
  }

  // ----- counting

  ghost predicate AllPresent(table: map<int, bytes>, n: int) {
    forall k :: 0 <= k < n ==> k in table
  }

  function Below(n: nat): (s: set<int>)
    ensures forall k :: k in s <==> 0 <= k < n
    ensures |s| == n
  {
    if n == 0 then {} else Below(n - 1) + {n - 1}
  }

  lemma FullWhen(keys: set<int>, n: nat)
    requires keys <= Below(n)
    ensures |keys| <= n && (|keys| == n <==> keys == Below(n))
  {
    hide Below;
    assert |Below(n) - keys| == |Below(n)| - |keys|;
    if |keys| == n { assert Below(n) == keys + (Below(n) - keys); }
  }

  /** Counting numbers from 0 to n tells whether 0 to n - 1 are all there, unless n is and at most one other is not. */
  lemma CountingTo(keys: set<int>, n: nat)
    requires keys <= Below(n) + {n}
    ensures (|keys| == n <==> Below(n) <= keys) <==> (n !in keys || |keys| < n)
  {
    hide Below;
    FullWhen(keys - {n}, n);
    if n in keys {
      assert |keys - {n}| == |keys| - 1;
      if Below(n) <= keys { assert Below(n) <= keys - {n}; }
    } else {
      assert keys - {n} == keys;
    }
  }

  lemma PresentKeys(table: map<int, bytes>, n: nat)
    ensures AllPresent(table, n) <==> Below(n) <= table.Keys
    ensures |table| == |table.Keys|
  {
  }

  /** Comparing the number of parts with the expected number tells whether every part is there, unless the table
      holds an empty part past the end while no more than one other part is missing. */
  lemma CountTest(table: map<int, bytes>, total: int, fixed: int)
    requires fixed > 0 && PartsOk(table, total, fixed)
    ensures var n := Parts(total, fixed);
      (|table| == n <==> n >= 0 && AllPresent(table, n)) <==> (n !in table || |table| < n)
  {
    forall k | k in table ensures 0 <= k <= Parts(total, fixed) { PartPlace(k, |table[k]|, total, fixed); }
    hide Parts, PartsOk, AllPresent;
    CountKeys(table, Parts(total, fixed));
  }

  lemma CountKeys(table: map<int, bytes>, n: int)
    requires forall k :: k in table ==> 0 <= k <= n
    ensures (|table| == n <==> n >= 0 && AllPresent(table, n)) <==> (n !in table || |table| < n)
  {
    if n >= 0 {
      assert table.Keys <= Below(n) + {n};
      hide Below, AllPresent;
      PresentKeys(table, n);
      CountingTo(table.Keys, n);
    }
  }

  /** Chunks that hold at least one byte never leave a part past the end, so for them the count decides. */
  lemma {:induction false} NonEmptyChunks(total: int, fixed: int, chunks: seq<Chunk>)
    requires fixed > 0 && forall i :: 0 <= i < |chunks| ==> chunks[i].data != []
    ensures Parts(total, fixed) !in Table(total, fixed, chunks)
    ensures var table, n := Table(total, fixed, chunks), Parts(total, fixed); |table| == n <==> n >= 0 && AllPresent(table, n)
  {
    hide PartsOk, AllPresent;
    if chunks != [] {
      var before, last := chunks[..|chunks| - 1], chunks[|chunks| - 1];
      NonEmptyChunks(total, fixed, before);
      NoPartPastEnd(total, fixed, Table(total, fixed, before), last);
    }
    TableOk(total, fixed, chunks);
    CountTest(Table(total, fixed, chunks), total, fixed);
  }

  lemma NoPartPastEnd(total: int, fixed: int, table: map<int, bytes>, c: Chunk)
    requires fixed > 0 && c.data != [] && Parts(total, fixed) !in table
    ensures var r := PutPart(table, total, fixed, c); r.Ok? ==> Parts(total, fixed) !in r.value
  {
    var r := PutPart(table, total, fixed, c);
    if r.Ok? {
      Aligned(c.offset, fixed);
      PartPlace(c.offset / fixed, |c.data|, total, fixed);
    }
  }

  /** An empty chunk at the very end counts as a part: here the count is right and a part is missing. */
  lemma EmptyChunkFoolsCount()
    ensures var table := Table(8, 4, [Chunk(0, [1, 2, 3, 4]), Chunk(8, [])]);
      |table| == Parts(8, 4) && !AllPresent(table, Parts(8, 4))
  {
    var a, b := Chunk(0, [1, 2, 3, 4]), Chunk(8, []);
    assert [a, b][..1] == [a] && [a][..0] == [];
    assert Table(8, 4, []) == map[];
    assert Table(8, 4, [a]) == map[0 := [1, 2, 3, 4]];
    var table := Table(8, 4, [a, b]);
    assert table == map[0 := [1, 2, 3, 4], 2 := []];
    assert table.Keys == {0, 2} && 1 !in table && Parts(8, 4) == 2;
    assert |table| == |table.Keys| == 2;
  }

  // ----- joining

  function Join(table: map<int, bytes>, n: nat): bytes
    requires AllPresent(table, n)
  {
    if n == 0 then [] else Join(table, n - 1) + table[n - 1]
  }

  ghost predicate Carries(file: bytes, offset: int, data: bytes) {
    0 <= offset && offset + |data| <= |file| ==> data == file[offset..offset + |data|]
  }

  /** Every part holds the bytes of the file at its place. */
  ghost predicate PartsAgree(table: map<int, bytes>, file: bytes, fixed: int) {
    forall k :: k in table ==> Carries(file, k * fixed, table[k])
  }

  lemma {:induction false} TableAgrees(file: bytes, fixed: int, chunks: seq<Chunk>)
    requires fixed > 0 && forall i :: 0 <= i < |chunks| ==> Carries(file, chunks[i].offset, chunks[i].data)
    ensures PartsAgree(Table(|file|, fixed, chunks), file, fixed)
  {
    if chunks != [] {
      var before, last := chunks[..|chunks| - 1], chunks[|chunks| - 1];
      TableAgrees(file, fixed, before);
      Aligned(last.offset, fixed);
    }
  }

  lemma {:induction false} JoinFull(table: map<int, bytes>, file: bytes, fixed: int, m: nat)
    requires fixed > 0 && PartsOk(table, |file|, fixed) && PartsAgree(table, file, fixed)
    requires AllPresent(table, m) && m <= |file| / fixed
    ensures m * fixed <= |file| && Join(table, m) == file[..m * fixed]
  {
    hide PartsOk, PartsAgree;
    Aligned(|file|, fixed);
    Times(m, |file| / fixed, fixed);
    Times(0, m, fixed);
    if m > 0 {
      FullPart(table, file, fixed, m - 1);
      JoinFull(table, file, fixed, m - 1);
      Distribute(m - 1, fixed);
      TwoCuts(file, (m - 1) * fixed, m * fixed);
    }
  }

  lemma FullPart(table: map<int, bytes>, file: bytes, fixed: int, k: nat)
    requires fixed > 0 && PartsOk(table, |file|, fixed) && PartsAgree(table, file, fixed) && k in table && k < |file| / fixed
    ensures k * fixed + fixed <= |file| && table[k] == file[k * fixed..k * fixed + fixed]
  {
    assert PartFits(k, |table[k]|, |file|, fixed) && Carries(file, k * fixed, table[k]);
    hide PartsOk, PartsAgree, PartFits;
    FullPlace(k, |table[k]|, |file|, fixed);
  }

  lemma FullPlace(k: nat, size: nat, total: int, fixed: int)
    requires fixed > 0 && PartFits(k, size, total, fixed) && k < total / fixed
    ensures size == fixed && k * fixed + fixed <= total && 0 <= k * fixed
  {
    PartPlace(k, size, total, fixed);
    Times(0, k, fixed);
  }

  lemma TwoCuts(file: bytes, a: nat, b: nat)
    requires a <= b <= |file|
    ensures file[..a] + file[a..b] == file[..b]
  {
  }

  /** Parts that carry the bytes of a file join to a front of it, and to all of it exactly when the short last part,
      if there is one, was given in full. */
  lemma JoinedParts(file: bytes, fixed: int, chunks: seq<Chunk>)
    requires fixed > 0 && forall i :: 0 <= i < |chunks| ==> Carries(file, chunks[i].offset, chunks[i].data)
    requires AllPresent(Table(|file|, fixed, chunks), Parts(|file|, fixed))
    ensures var n, table := Parts(|file|, fixed), Table(|file|, fixed, chunks);
      && Join(table, n) <= file
      && (Join(table, n) == file <==> (|file| % fixed != 0 ==> |table[n - 1]| == |file| % fixed))
  {
    TableOk(|file|, fixed, chunks);
    TableAgrees(file, fixed, chunks);
    hide Table, PartsOk, PartsAgree, AllPresent, Join, Parts;
    AgreeingParts(file, fixed, Table(|file|, fixed, chunks));
  }

  lemma AgreeingParts(file: bytes, fixed: int, table: map<int, bytes>)
    requires fixed > 0 && PartsOk(table, |file|, fixed) && PartsAgree(table, file, fixed)
    requires AllPresent(table, Parts(|file|, fixed))
    ensures var n := Parts(|file|, fixed);
      && Join(table, n) <= file
      && (Join(table, n) == file <==> (|file| % fixed != 0 ==> |table[n - 1]| == |file| % fixed))
  {
    hide PartsOk, PartsAgree;
    var q := |file| / fixed;
    var cut := FullParts(file, fixed, table);
    if |file| % fixed != 0 {
      FrontAndLast(file, cut, table[q]);
    } else {
      assert file[..|file|] == file;
    }
  }

  /** The parts of the fixed size join to the file up to its short end; the part that holds the end fits there. */
  lemma FullParts(file: bytes, fixed: int, table: map<int, bytes>) returns (cut: nat)
    requires fixed > 0 && PartsOk(table, |file|, fixed) && PartsAgree(table, file, fixed)
    requires AllPresent(table, |file| / fixed)
    ensures cut + |file| % fixed == |file| && Join(table, |file| / fixed) == file[..cut]
    ensures var q := |file| / fixed; q in table ==> |table[q]| <= |file| % fixed && Carries(file, cut, table[q])
  {
    hide PartsOk, PartsAgree, Join, Carries;
    var q := |file| / fixed;
    JoinFull(table, file, fixed, q);
    Aligned(|file|, fixed);
    cut := q * fixed;
    if q in table { PartAt(table, file, fixed, q); }
  }

  lemma PartAt(table: map<int, bytes>, file: bytes, fixed: int, q: nat)
    requires fixed > 0 && PartsOk(table, |file|, fixed) && PartsAgree(table, file, fixed) && q in table && q == |file| / fixed
    ensures |table[q]| <= |file| % fixed && Carries(file, q * fixed, table[q])
  {
    PartPlace(q, |table[q]|, |file|, fixed);
  }

  lemma FrontAndLast(file: bytes, cut: nat, last: bytes)
    requires cut + |last| <= |file| && Carries(file, cut, last)
    ensures file[..cut] + last <= file && (file[..cut] + last == file <==> |last| == |file| - cut)
  {
    TwoCuts(file, cut, cut + |last|);
  }

  /** A last part shorter than the end of the file is accepted and counted: the stored object is cut short. */
  lemma ShortLastPart()
    ensures var file: bytes := [1, 2, 3, 4, 5, 6];
      var table := Table(|file|, 4, [Chunk(0, file[..4]), Chunk(4, file[4..5])]);
      && |table| == Parts(|file|, 4) && AllPresent(table, Parts(|file|, 4))
      && Join(table, Parts(|file|, 4)) != file
  {
    var file: bytes := [1, 2, 3, 4, 5, 6];
    var a, b := Chunk(0, file[..4]), Chunk(4, file[4..5]);
    assert [a, b][..1] == [a] && [a][..0] == [];
    assert Table(6, 4, []) == map[];
    assert Table(6, 4, [a]) == map[0 := file[..4]];
    var table := Table(6, 4, [a, b]);
    assert table == map[0 := file[..4], 1 := file[4..5]];
    hide Table;
    assert table.Keys == {0, 1};
    assert |table| == |table.Keys| == 2;
    assert |Join(table, 2)| == |Join(table, 1)| + 1 && |Join(table, 1)| == |Join(table, 0)| + 4;
  }

  // ----- the client

  /** The chunks of pieces sent one after the other from offset 0. */
  function ChunksOf(sent: seq<bytes>): (r: seq<Chunk>)
    ensures |r| == |sent|
  {
    if sent == [] then []
    else
      var before := sent[..|sent| - 1];
      ChunksOf(before) + [Chunk(|Concat(before)|, sent[|sent| - 1])]
  }

  /** Non-empty pieces of the fixed size, but for the last, which may be shorter. */
  ghost predicate Even(sent: seq<bytes>, fixed: int) {
    && (forall i :: 0 <= i < |sent| ==> 0 < |sent[i]| <= fixed)
    && (forall i :: 0 <= i < |sent| - 1 ==> |sent[i]| == fixed)
  }

  function Placed(sent: seq<bytes>): map<int, bytes> { map k | 0 <= k < |sent| :: sent[k] }

  lemma {:induction false} EvenOffsets(sent: seq<bytes>, fixed: int)
    requires forall i :: 0 <= i < |sent| ==> |sent[i]| == fixed
    ensures |Concat(sent)| == |sent| * fixed
  {
    if sent != [] {
      EvenOffsets(sent[1..], fixed);
      Distribute(|sent| - 1, fixed);
    }
  }

  lemma Quotient(k: nat, r: nat, fixed: int)
    requires 0 <= r < fixed
    ensures (k * fixed + r) / fixed == k && (k * fixed + r) % fixed == r
  {
    var n := k * fixed + r;
    Aligned(n, fixed);
    if n / fixed > k { Times(k + 1, n / fixed, fixed); Distribute(k, fixed); }
    if n / fixed < k { Times(n / fixed + 1, k, fixed); Distribute(n / fixed, fixed); }
  }

  /** The next piece of an evenly cut stream is accepted, as the next part. */
  lemma EvenPiece(before: seq<bytes>, last: bytes, total: int, fixed: int)
    requires fixed > 0 && Even(before + [last], fixed)
    requires |Concat(before + [last])| == total || (|Concat(before + [last])| < total && |last| == fixed)
    requires |before| < MAX_PARTS
    ensures PutPart(Placed(before), total, fixed, Chunk(|Concat(before)|, last)) == Ok(Placed(before + [last]))
  {
    var sent := before + [last];
    forall i | 0 <= i < |before| ensures |before[i]| == fixed { assert sent[i] == before[i]; }
    assert sent[|before|] == last;
    EvenOffsets(before, fixed);
    Client.ConcatSnoc(before, last);
    Quotient(|before|, 0, fixed);
    assert Placed(before)[|before| := last] == Placed(sent);
  }

  lemma NothingPlaced(sent: seq<bytes>, total: int, fixed: int)
    requires fixed > 0
    ensures Table(total, fixed, ChunksOf(sent[..0])) == Placed(sent[..0]) == map[]
  {
  }

  lemma TableOfFront(sent: seq<bytes>, total: int, fixed: int, i: nat)
    requires 0 < i <= |sent| && fixed > 0
    ensures var before := Table(total, fixed, ChunksOf(sent[..i - 1]));
      var r := PutPart(before, total, fixed, Chunk(|Concat(sent[..i - 1])|, sent[i - 1]));
      Table(total, fixed, ChunksOf(sent[..i])) == if r.Ok? then r.value else before
  {
    hide PutPart, Concat;
    ChunksOfFront(sent, i);
  }

  lemma ChunksOfFront(sent: seq<bytes>, i: nat)
    requires 0 < i <= |sent|
    ensures ChunksOf(sent[..i]) == ChunksOf(sent[..i - 1]) + [Chunk(|Concat(sent[..i - 1])|, sent[i - 1])]
    ensures ChunksOf(sent[..i])[..i - 1] == ChunksOf(sent[..i - 1])
  {
    assert sent[..i][..i - 1] == sent[..i - 1];
  }

  lemma {:induction false} EvenTable(sent: seq<bytes>, total: int, fixed: int, i: nat)
    requires fixed > 0 && Even(sent, fixed) && |Concat(sent)| == total && i <= |sent| <= MAX_PARTS
    ensures Table(total, fixed, ChunksOf(sent[..i])) == Placed(sent[..i])
    ensures i < |sent| ==> PutPart(Placed(sent[..i]), total, fixed, Chunk(|Concat(sent[..i])|, sent[i])) == Ok(Placed(sent[..i + 1]))
  {
    hide Table, ChunksOf, PutPart, Even, Concat, Placed;
    if i == 0 {
      NothingPlaced(sent, total, fixed);
    } else {
      EvenTable(sent, total, fixed, i - 1);
      TableOfFront(sent, total, fixed, i);
    }
    if i < |sent| {
      FrontOfEven(sent, total, fixed, i);
      EvenPiece(sent[..i], sent[i], total, fixed);
    }
  }

  lemma FrontOfEven(sent: seq<bytes>, total: int, fixed: int, i: nat)
    requires Even(sent, fixed) && |Concat(sent)| == total && i < |sent|
    ensures sent[..i] + [sent[i]] == sent[..i + 1] && Even(sent[..i + 1], fixed)
    ensures |Concat(sent[..i + 1])| == total || (|Concat(sent[..i + 1])| < total && |sent[i]| == fixed)
  {
    assert sent == sent[..i + 1] + sent[i + 1..];
    ConcatAppend(sent[..i + 1], sent[i + 1..]);
    if i + 1 < |sent| {
      assert |sent[i + 1..][0]| > 0;
    } else {
      assert sent[..i + 1] == sent;
    }
  }

  lemma {:induction false} PlacedJoin(sent: seq<bytes>, m: nat)
    requires m <= |sent|
    ensures Join(Placed(sent), m) == Concat(sent[..m])
  {
    if m > 0 {
      PlacedJoin(sent, m - 1);
      Client.ConcatSnoc(sent[..m - 1], sent[m - 1]);
      assert sent[..m] == sent[..m - 1] + [sent[m - 1]];
    }
  }

  lemma EvenCount(sent: seq<bytes>, fixed: int)
    requires fixed > 0 && Even(sent, fixed)
    ensures |sent| == Parts(|Concat(sent)|, fixed)
  {
    if sent != [] {
      var before, last := sent[..|sent| - 1], sent[|sent| - 1];
      EvenOffsets(before, fixed);
      Client.ConcatSnoc(before, last);
      assert sent == before + [last];
      if |last| == fixed {
        Distribute(|before|, fixed);
        Quotient(|sent|, 0, fixed);
      } else {
        Quotient(|before|, |last|, fixed);
      }
    }
  }

  /** With neither smaller nor bigger chunks allowed, every piece the client sends of a stream of the announced length
      is accepted, all parts are there afterwards, and they join to the stream. */
  lemma ClientUpload(c: Client.Settings, chunks: seq<bytes>)
    requires c.chunkSize > 0 && !c.allowSmaller && !c.allowBigger
    requires Parts(|Concat(chunks)|, c.chunkSize) <= MAX_PARTS
    ensures var sent, total := Client.Rechunk(c, [], chunks), |Concat(chunks)|;
      var table, n := Table(total, c.chunkSize, ChunksOf(sent)), Parts(total, c.chunkSize);
      && (forall i :: 0 <= i < |sent| ==> PieceAccepted(sent, total, c.chunkSize, i))
      && |table| == n && AllPresent(table, n)
      && Join(table, n) == Concat(chunks)
  {
    var sent, total := Client.Rechunk(c, [], chunks), |Concat(chunks)|;
    Client.RechunkSizes(c, [], chunks);
    Client.RechunkConcat(c, [], chunks);
    Units(Concat(chunks));
    NotEmpty(sent);
    hide Client.Rechunk;
    EvenUpload(sent, c.chunkSize);
  }

  lemma EvenUpload(sent: seq<bytes>, fixed: int)
    requires fixed > 0 && Even(sent, fixed) && Parts(|Concat(sent)|, fixed) <= MAX_PARTS
    ensures var total := |Concat(sent)|;
      var table, n := Table(total, fixed, ChunksOf(sent)), Parts(total, fixed);
      && (forall i :: 0 <= i < |sent| ==> PieceAccepted(sent, total, fixed, i))
      && |table| == n && AllPresent(table, n)
      && Join(table, n) == Concat(sent)
  {
    var total := |Concat(sent)|;
    hide Table, PutPart, ChunksOf, Parts, Concat, Join, Even;
    EvenCount(sent, fixed);
    forall i | 0 <= i < |sent| ensures PieceAccepted(sent, total, fixed, i) {
      EvenTable(sent, total, fixed, i);
    }
    EvenTable(sent, total, fixed, |sent|);
    assert sent[..|sent|] == sent;
    PlacedJoin(sent, |sent|);
    assert Placed(sent).Keys == Below(|sent|);
    assert |Placed(sent)| == |Placed(sent).Keys|;
  }

  /** The i-th piece is accepted after those before it. */
  ghost predicate PieceAccepted(sent: seq<bytes>, total: int, fixed: int, i: nat)
    requires fixed > 0 && i < |sent|
  {
    PutPart(Table(total, fixed, ChunksOf(sent[..i])), total, fixed, Chunk(|Concat(sent[..i])|, sent[i])).Ok?
  }

  lemma NotEmpty(sent: seq<bytes>)
    requires forall i :: 0 <= i < |sent| ==> sent[i] != []
    ensures forall i :: 0 <= i < |sent| ==> |sent[i]| > 0
  {
  }
}

/** The object-store backend: one unfinished multipart upload at a time for each key. */
module S3 {
  import opened Common
  import opened FixedChunk

  type Key = string

  class S3Backend {
    const fixed: int
    // What the object service holds; a table entry stands for the part it names.
    var objects: map<Key, bytes>
    var uploadStatusFor: map<(Key, int), map<int, bytes>>
    var expectedTotalSizeFor: map<(Key, int), int>
    var currentlyUploading: map<Key, int>

    /** The dictionaries agree, each key has one unfinished upload at most, and all parts are in place. */
    ghost predicate Valid()
      reads this
    {
      && fixed > 0
      && uploadStatusFor.Keys == expectedTotalSizeFor.Keys
      && (forall k, i :: (k, i) in uploadStatusFor <==> k in currentlyUploading && currentlyUploading[k] == i)
      && (forall u :: u in uploadStatusFor ==> PartsOk(uploadStatusFor[u], expectedTotalSizeFor[u], fixed))
    }

    constructor (fixedChunkSize: int, stored: map<Key, bytes>)
      requires fixedChunkSize > 0
      ensures Valid() && fixed == fixedChunkSize && objects == stored && currentlyUploading == map[]
    {
      fixed, objects := fixedChunkSize, stored;
      uploadStatusFor, expectedTotalSizeFor, currentlyUploading := map[], map[], map[];
    }

    method Prepare(key: Key, index: int, total: int) returns (r: Outcome<(), UploadError>)
      requires Valid()
      modifies this
      ensures Valid() && objects == old(objects)
      ensures r == if key in objects then Raised(AlreadyUploadedContent)
                   else if key in old(currentlyUploading) then Raised(AlreadyUploadingContent) else Ok(())
      ensures r.Ok? ==>
        && currentlyUploading == old(currentlyUploading)[key := index]
        && uploadStatusFor == old(uploadStatusFor)[(key, index) := map[]]
        && expectedTotalSizeFor == old(expectedTotalSizeFor)[(key, index) := total]
      ensures r.Raised? ==> unchanged(this)
    {
      if key in objects { return Raised(AlreadyUploadedContent); }
      if key in currentlyUploading { return Raised(AlreadyUploadingContent); }
      currentlyUploading := currentlyUploading[key := index];
      expectedTotalSizeFor := expectedTotalSizeFor[(key, index) := total];
      uploadStatusFor := uploadStatusFor[(key, index) := map[]];
      return Ok(());
    }

    method UploadChunkAt(key: Key, index: int, offset: int, data: bytes) returns (r: Outcome<int, UploadError>)
      requires Valid()
      modifies this
      ensures Valid() && objects == old(objects) && currentlyUploading == old(currentlyUploading)
      ensures (key, index) !in old(uploadStatusFor) ==> r == Raised(NotExistingPlaceholder) && unchanged(this)
      ensures (key, index) in old(uploadStatusFor) ==>
        var put := PutPart(old(uploadStatusFor)[(key, index)], old(expectedTotalSizeFor)[(key, index)], fixed, Chunk(offset, data));
        if put.Raised? then r == Raised(put.error) && unchanged(this)
        else r == Ok(|data|) && uploadStatusFor == old(uploadStatusFor)[(key, index) := put.value] && unchanged(`expectedTotalSizeFor)
    {
      if (key, index) !in uploadStatusFor { return Raised(NotExistingPlaceholder); }
      var compatible := EnsureCompatible(offset, |data|, fixed, expectedTotalSizeFor[(key, index)]);
      if compatible.Raised? { return Raised(Constraint(compatible.error)); }
      var part := offset / fixed;
      if !(0 <= part < MAX_PARTS) { return Raised(ServiceRefused); }
      PutKeepsPartsOk(uploadStatusFor[(key, index)], expectedTotalSizeFor[(key, index)], fixed, Chunk(offset, data));
      uploadStatusFor := uploadStatusFor[(key, index) := uploadStatusFor[(key, index)][part := data]];
      return Ok(|data|);
    }

    method Forget(key: Key, index: int)
      requires Valid() && (key, index) in uploadStatusFor
      modifies this
      ensures Valid() && objects == old(objects)
      ensures currentlyUploading == old(currentlyUploading) - {key}
      ensures uploadStatusFor == old(uploadStatusFor) - {(key, index)}
      ensures expectedTotalSizeFor == old(expectedTotalSizeFor) - {(key, index)}
    {
      uploadStatusFor := uploadStatusFor - {(key, index)};
      expectedTotalSizeFor := expectedTotalSizeFor - {(key, index)};
      currentlyUploading := currentlyUploading - {key};
    }

    /** `served` says whether the object service accepts the list of parts, when it is asked to. */
    method UploadTerminate(key: Key, index: int, served: bool) returns (r: Outcome<(), UploadError>)
      requires Valid()
      modifies this
      ensures Valid()
      ensures (key, index) !in old(uploadStatusFor) ==> r == Raised(NotExistingPlaceholder) && unchanged(this)
      ensures (key, index) in old(uploadStatusFor) ==>
        var table, n := old(uploadStatusFor)[(key, index)], Parts(old(expectedTotalSizeFor)[(key, index)], fixed);
        && currentlyUploading == old(currentlyUploading) - {key}
        && uploadStatusFor == old(uploadStatusFor) - {(key, index)}
        && expectedTotalSizeFor == old(expectedTotalSizeFor) - {(key, index)}
        && (r.Ok? <==> |table| == n && AllPresent(table, n) && served)
        && objects == (if |table| == n && AllPresent(table, n) && served then old(objects)[key := Join(table, n)] else old(objects))
        && (|table| != n ==> r == Raised(MissingChunks(|table|, n)))
        && (|table| == n && AllPresent(table, n) && !served ==> r == Raised(ServiceRefused))
    {
      if (key, index) !in uploadStatusFor { return Raised(NotExistingPlaceholder); }
      var parts, total := uploadStatusFor[(key, index)], expectedTotalSizeFor[(key, index)];
      var n := Parts(total, fixed);
      Forget(key, index);
      hide Parts, Join, AllPresent, PartsOk;
      if |parts| != n { return Raised(MissingChunks(|parts|, n)); }
      var joined := Complete(parts, n);
      if joined.Raised? { return Raised(joined.error); }
      if !served { return Raised(ServiceRefused); }
      objects := objects[key := joined.value];
      return Ok(());
    }

    static method Complete(parts: map<int, bytes>, n: nat) returns (r: Outcome<bytes, UploadError>)
      ensures r.Ok? <==> AllPresent(parts, n)
      ensures r.Ok? ==> r.value == Join(parts, n)
    {
      var joined: bytes := [];
      for i := 0 to n
        invariant AllPresent(parts, i) && joined == Join(parts, i)
      {
        if i !in parts { return Raised(PartNotFound(i)); }
        joined := joined + parts[i];
      }
      return Ok(joined);
    }

    method DeleteResource(key: Key, index: int) returns (r: Outcome<(), UploadError>)
      requires Valid()
      modifies this
      ensures Valid()
      ensures index >= 0 ==> objects == old(objects) && r == if (key, index) in old(uploadStatusFor) then Ok(()) else Raised(UnknownUpload)
      ensures index >= 0 && r.Ok? ==> uploadStatusFor == old(uploadStatusFor) - {(key, index)} && currentlyUploading == old(currentlyUploading) - {key}
      ensures index >= 0 && r.Ok? ==> expectedTotalSizeFor == old(expectedTotalSizeFor) - {(key, index)}
      ensures index < 0 ==> objects == old(objects) - {key} && r == if key in old(objects) then Ok(()) else Raised(NotExistingContent)
      ensures index < 0 ==> unchanged(`uploadStatusFor, `expectedTotalSizeFor, `currentlyUploading)
      ensures r.Raised? ==> unchanged(this)
    {
      if index >= 0 {
        if (key, index) !in uploadStatusFor { return Raised(UnknownUpload); }
        Forget(key, index);
        return Ok(());
      }
      if key !in objects { return Raised(NotExistingContent); }
      objects := objects - {key};
      return Ok(());
    }
  }
}
