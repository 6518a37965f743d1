/** The in-memory backend: finished files by their hash, unfinished uploads by placeholder number, and two
    size counters that keep memory within its limit. */
module InMem {
  import opened Common
  import opened Intervals
  import opened Slices
  import opened ByteUnion
  import opened MapSums

  /** A content hash. The hash function itself is a parameter. */
  type Hash = int

  datatype Error =
    | NotEnoughSpace(requested: int, remaining: int)
    | AlreadyUploading
    | NotExistingPlaceholder
    | TooManyParts(parts: int)
    | HashNotMatching
    | NotExistingContent
    | KeyError
    | ChunkOutOfRange
    | BadIntervalUnion
    | UploadedMeanwhile

  /** An unfinished upload. */
  datatype Temp = Temp(total: int, store: Store<Value>)

  datatype Mem = Mem(size: int, sizeMax: int, files: map<Hash, bytes>, temps: map<int, Temp>)

  datatype Params = Params(allowedMemory: nat, maxParts: int, digest: bytes -> Hash)

  ghost predicate TempOk(t: Temp) { Consistent(t.store) && Good(t.store.slices, true) }

  ghost predicate MemOk(m: Mem) { forall i :: i in m.temps ==> TempOk(m.temps[i]) }

  // ----- the operations, on values

  ghost function Prepare(p: Params, m: Mem, id: int, total: int): (Mem, Outcome<(), Error>) {
    if m.sizeMax + total > p.allowedMemory then (m, Raised(NotEnoughSpace(total, p.allowedMemory - m.sizeMax)))
    else if id in m.temps then (m, Raised(AlreadyUploading))
    else (m.(temps := m.temps[id := Temp(total, Empty())], sizeMax := m.sizeMax + total), Ok(()))
  }

  ghost function UploadChunk(p: Params, m: Mem, id: int, offset: int, data: bytes): (Mem, Outcome<int, Error>)
    requires MemOk(m)
  {
    if id !in m.temps then (m, Raised(NotExistingPlaceholder))
    else
      var t := m.temps[id];
      var call := Call(offset, data, None);
      var written := Returned(t.store, t.total, call);
      var after := After(t.store, t.total, true, call);
      if written.Raised? then (m, Raised(ChunkOutOfRange))
      else
        (m.(temps := m.temps[id := t.(store := after)]),
         if |after.intervals| > p.maxParts then Raised(TooManyParts(|after.intervals|)) else Ok(written.value))
  }

  /** The content of a finished upload once checked against its hash; nothing for one that is incomplete. */
  ghost function Finished(p: Params, t: Temp, hash: Hash): Outcome<Option<bytes>, Error> {
    if !Complete(t.store, t.total) then Ok(None)
    else
      var pieces := Pieces(t.store.slices, 0);
      if pieces.Raised? then Raised(BadIntervalUnion)
      else if p.digest(Joined(pieces.value)) != hash then Raised(HashNotMatching)
      else Ok(Some(Joined(pieces.value)))
  }

  ghost function Terminate(p: Params, m: Mem, hash: Hash, id: int): (Mem, Outcome<(), Error>) {
    if id !in m.temps then (m, Raised(KeyError))
    else
      var content := Finished(p, m.temps[id], hash);
      if content.Raised? then (m, Raised(content.error))
      else if content.value.None? then (m.(temps := m.temps - {id}), Ok(()))
      else
        var data := content.value.value;
        (Mem(m.size + |data|, m.sizeMax, m.files[hash := data], m.temps - {id}), Ok(()))
  }

  ghost function Delete(m: Mem, hash: Hash, id: int): (Mem, Outcome<(), Error>) {
    if id >= 0 then
      if id !in m.temps then (m, Raised(KeyError))
      else
        (m.(sizeMax := m.sizeMax - m.temps[id].total, temps := m.temps - {id}),
         if hash in m.files then Raised(UploadedMeanwhile) else Ok(()))
    else if hash !in m.files then (m, Raised(KeyError))
    else (m.(size := m.size - |m.files[hash]|, files := m.files - {hash}), Ok(()))
  }

  // ----- runs

  datatype Op =
    | OpPrepare(id: int, total: int)
    | OpUpload(id: int, offset: int, data: bytes)
    | OpTerminate(hash: Hash, id: int)
    | OpDelete(hash: Hash, id: int)

  ghost function Step(p: Params, m: Mem, op: Op): (Mem, bool)
    requires MemOk(m)
  {
    match op
    case OpPrepare(id, total) => var r := Prepare(p, m, id, total); (r.0, r.1.Ok?)
    case OpUpload(id, offset, data) => var r := UploadChunk(p, m, id, offset, data); (r.0, r.1.Ok?)
    case OpTerminate(hash, id) => var r := Terminate(p, m, hash, id); (r.0, r.1.Ok?)
    case OpDelete(hash, id) => var r := Delete(m, hash, id); (r.0, r.1.Ok?)
  }

  const Start: Mem := Mem(0, 0, map[], map[])

  lemma StepOk(p: Params, m: Mem, op: Op)
    requires MemOk(m)
    ensures MemOk(Step(p, m, op).0)
  {
    if op.OpUpload? && op.id in m.temps {
      var t := m.temps[op.id];
      AfterConsistent(t.store, t.total, true, Call(op.offset, op.data, None));
      AfterGood(t.store, t.total, true, Call(op.offset, op.data, None));
    }
  }

  ghost function RunOps(p: Params, ops: seq<Op>): (m: Mem)
    ensures MemOk(m)
  {
    if ops == [] then Start
    else
      var before := RunOps(p, ops[..|ops| - 1]);
      StepOk(p, before, ops[|ops| - 1]);
      Step(p, before, ops[|ops| - 1]).0
  }

  // ----- accounting

  ghost function FileSizes(files: map<Hash, bytes>): map<Hash, int> { map h | h in files :: |files[h]| }

  ghost function HeldSizes(temps: map<int, Temp>): map<int, int> { map i | i in temps :: |Points(temps[i].store.intervals)| }

  ghost function Totals(temps: map<int, Temp>): map<int, int> { map i | i in temps :: temps[i].total }

  ghost function Replaced(p: Params, ops: seq<Op>): nat {
    if ops == [] then 0
    else Replaced(p, ops[..|ops| - 1]) + ReplacedBy(p, RunOps(p, ops[..|ops| - 1]), ops[|ops| - 1])
  }

  ghost function GivenUp(p: Params, ops: seq<Op>): int {
    if ops == [] then 0
    else GivenUp(p, ops[..|ops| - 1]) + GivenUpBy(p, RunOps(p, ops[..|ops| - 1]), ops[|ops| - 1])
  }

  /** Some upload was accepted with a negative size. */
  ghost predicate NegativeAnnounced(p: Params, ops: seq<Op>) {
    ops != [] &&
    (NegativeAnnounced(p, ops[..|ops| - 1]) || AnnouncesNegative(p, RunOps(p, ops[..|ops| - 1]), ops[|ops| - 1]))
  }

  ghost predicate AnnouncesNegative(p: Params, m: Mem, op: Op) {
    op.OpPrepare? && op.total < 0 && Prepare(p, m, op.id, op.total).1.Ok?
  }

  ghost predicate TempWithin(t: Temp) { forall q :: q in Points(t.store.intervals) ==> 0 <= q < t.total }

  /** Every run stores points before the end only. */
  ghost predicate BelowEnd(t: Temp) { forall q :: q in Points(t.store.intervals) ==> q < t.total }

  /** What every run keeps of uploads and files. */
  ghost predicate Sound(p: Params, m: Mem) {
    && MemOk(m)
    && (forall i :: i in m.temps ==> BelowEnd(m.temps[i]))
    && (forall h :: h in m.files ==> p.digest(m.files[h]) == h)
  }

  /** What the current size counts beyond the files, and the maximal size beyond current size and announced sizes. */
  ghost predicate Balanced(m: Mem, replaced: int, givenUp: int) {
    && m.size == Total(FileSizes(m.files)) + replaced
    && m.sizeMax == m.size + Total(Totals(m.temps)) + givenUp
  }

  /** The size of a file whose place another of the same hash takes. */
  ghost function ReplacedBy(p: Params, m: Mem, op: Op): nat {
    if op.OpTerminate? && op.id in m.temps && op.hash in m.files
       && Finished(p, m.temps[op.id], op.hash).Ok? && Finished(p, m.temps[op.id], op.hash).value.Some?
    then |m.files[op.hash]| else 0
  }

  /** The size announced for an upload that is terminated incomplete, or that of a file deleted. */
  ghost function GivenUpBy(p: Params, m: Mem, op: Op): int {
    if op.OpTerminate? && op.id in m.temps && Finished(p, m.temps[op.id], op.hash) == Ok(None) then m.temps[op.id].total
    else if op.OpDelete? && op.id < 0 && op.hash in m.files then |m.files[op.hash]|
    else 0
  }

  lemma SubsetSize(a: set<int>, b: set<int>)
    requires a <= b
    ensures |a| <= |b|
  {
    assert b == a + (b - a);
    DisjointSize(a, b - a);
  }

  lemma HeldWithinTotals(temps: map<int, Temp>)
    requires forall i :: i in temps ==> TempWithin(temps[i]) && temps[i].total >= 0
    ensures Total(HeldSizes(temps)) <= Total(Totals(temps))
  {
    forall i | i in temps ensures |Points(temps[i].store.intervals)| <= temps[i].total {
      RangeSize(0, temps[i].total);
      SubsetSize(Points(temps[i].store.intervals), Range(0, temps[i].total));
    }
    TotalBelow(HeldSizes(temps), Totals(temps));
  }

  lemma TotalsPut(temps: map<int, Temp>, id: int, t: Temp)
    ensures Total(Totals(temps[id := t])) == Total(Totals(temps)) - (if id in temps then temps[id].total else 0) + t.total
  {
    assert Totals(temps[id := t]) == Totals(temps)[id := t.total];
    TotalPut(Totals(temps), id, t.total);
  }

  lemma TotalsDrop(temps: map<int, Temp>, id: int)
    requires id in temps
    ensures Total(Totals(temps - {id})) == Total(Totals(temps)) - temps[id].total
  {
    assert Totals(temps - {id}) == Totals(temps) - {id};
    TotalPick(Totals(temps), id);
  }

  lemma FilesPut(files: map<Hash, bytes>, h: Hash, data: bytes)
    ensures Total(FileSizes(files[h := data])) == Total(FileSizes(files)) - (if h in files then |files[h]| else 0) + |data|
  {
    assert FileSizes(files[h := data]) == FileSizes(files)[h := |data|];
    TotalPut(FileSizes(files), h, |data|);
  }

  lemma FilesDrop(files: map<Hash, bytes>, h: Hash)
    requires h in files
    ensures Total(FileSizes(files - {h})) == Total(FileSizes(files)) - |files[h]|
  {
    assert FileSizes(files - {h}) == FileSizes(files) - {h};
    TotalPick(FileSizes(files), h);
  }

  /** A complete, readable upload joins to exactly as many bytes as were announced. */
  lemma CompleteLength(t: Temp)
    requires TempOk(t) && Complete(t.store, t.total) && Pieces(t.store.slices, 0).Ok?
    ensures |Joined(Pieces(t.store.slices, 0).value)| == t.total
  {
    FilledIsCardinality(t.store.intervals);
    PiecesBytes(t.store.slices, 0);
  }

  lemma PrepareBalanced(p: Params, m: Mem, id: int, total: int, replaced: int, givenUp: int)
    requires Sound(p, m) && Balanced(m, replaced, givenUp)
    ensures Sound(p, Prepare(p, m, id, total).0) && Balanced(Prepare(p, m, id, total).0, replaced, givenUp)
  {
    TotalsPut(m.temps, id, Temp(total, Empty()));
  }

  lemma UploadBalanced(p: Params, m: Mem, id: int, offset: int, data: bytes, replaced: int, givenUp: int)
    requires Sound(p, m) && Balanced(m, replaced, givenUp)
    ensures var m' := UploadChunk(p, m, id, offset, data).0; Sound(p, m') && Balanced(m', replaced, givenUp)
  {
    hide After, TempOk, BelowEnd, Totals, FileSizes, Total;
    if id in m.temps {
      var t, call := m.temps[id], Call(offset, data, None);
      ChunkBelowEnd(t, call);
      TotalsPut(m.temps, id, t.(store := After(t.store, t.total, true, call)));
    }
  }

  lemma ChunkBelowEnd(t: Temp, call: Call)
    requires TempOk(t) && BelowEnd(t)
    ensures Consistent(t.store)
    ensures var t' := t.(store := After(t.store, t.total, true, call)); TempOk(t') && BelowEnd(t')
  {
    hide After;
    AfterConsistent(t.store, t.total, true, call);
    AfterGood(t.store, t.total, true, call);
    if call.offset > t.total { AfterRaised(t.store, t.total, true, call); }
  }

  lemma TerminateBalanced(p: Params, m: Mem, hash: Hash, id: int, replaced: int, givenUp: int)
    requires Sound(p, m) && Balanced(m, replaced, givenUp)
    ensures var m', op := Terminate(p, m, hash, id).0, OpTerminate(hash, id);
      Sound(p, m') && Balanced(m', replaced + ReplacedBy(p, m, op), givenUp + GivenUpBy(p, m, op))
  {
    hide TempOk, BelowEnd, Totals, FileSizes, Total, Complete, Pieces, Joined;
    if id in m.temps {
      TotalsDrop(m.temps, id);
      var t := m.temps[id];
      if Complete(t.store, t.total) && Pieces(t.store.slices, 0).Ok? {
        CompleteLength(t);
        FilesPut(m.files, hash, Joined(Pieces(t.store.slices, 0).value));
      }
    }
  }

  lemma DeleteBalanced(p: Params, m: Mem, hash: Hash, id: int, replaced: int, givenUp: int)
    requires Sound(p, m) && Balanced(m, replaced, givenUp)
    ensures var m' := Delete(m, hash, id).0;
      Sound(p, m') && Balanced(m', replaced, givenUp + GivenUpBy(p, m, OpDelete(hash, id)))
  {
    if id in m.temps { TotalsDrop(m.temps, id); }
    if hash in m.files { FilesDrop(m.files, hash); }
  }

  lemma StepBalanced(p: Params, m: Mem, op: Op, replaced: int, givenUp: int)
    requires Sound(p, m) && Balanced(m, replaced, givenUp)
    ensures var m' := Step(p, m, op).0;
      Sound(p, m') && Balanced(m', replaced + ReplacedBy(p, m, op), givenUp + GivenUpBy(p, m, op))
  {
    hide Balanced, Prepare, UploadChunk, Terminate, Delete;
    match op
    case OpPrepare(id, total) => PrepareBalanced(p, m, id, total, replaced, givenUp);
    case OpUpload(id, offset, data) => UploadBalanced(p, m, id, offset, data, replaced, givenUp);
    case OpTerminate(hash, id) => TerminateBalanced(p, m, hash, id, replaced, givenUp);
    case OpDelete(hash, id) => DeleteBalanced(p, m, hash, id, replaced, givenUp);
  }

  lemma StartBalanced(p: Params)
    ensures Sound(p, Start) && Balanced(Start, 0, 0)
  {
    assert FileSizes(map[]) == map[] && Totals(map[]) == map[];
  }

  /** In every run every stored file hashes to its key, and the counters are exact: the current size is that of the
      files stored and of those replaced; the maximal size is the current size, the sizes announced, and those given
      up. */
  lemma {:induction false} RunBalanced(p: Params, ops: seq<Op>)
    ensures Sound(p, RunOps(p, ops)) && Balanced(RunOps(p, ops), Replaced(p, ops), GivenUp(p, ops))
    decreases |ops|
  {
    hide Sound, Balanced, Step, ReplacedBy, GivenUpBy;
    if ops == [] {
      StartBalanced(p);
    } else {
      var front := ops[..|ops| - 1];
      RunBalanced(p, front);
      StepBalanced(p, RunOps(p, front), ops[|ops| - 1], Replaced(p, front), GivenUp(p, front));
    }
  }

  // ----- bounds

  /** Announced sizes are sizes, and the maximal size is within the limit. */
  ghost predicate Moderate(p: Params, m: Mem) {
    (forall i :: i in m.temps ==> m.temps[i].total >= 0) && m.sizeMax <= p.allowedMemory
  }

  lemma StepModerate(p: Params, m: Mem, op: Op)
    requires MemOk(m) && Moderate(p, m) && !AnnouncesNegative(p, m, op)
    ensures Moderate(p, Step(p, m, op).0) && GivenUpBy(p, m, op) >= 0
  {
    hide After, Finished, TempOk;
  }

  lemma {:induction false} RunModerate(p: Params, ops: seq<Op>)
    requires !NegativeAnnounced(p, ops)
    ensures Moderate(p, RunOps(p, ops)) && GivenUp(p, ops) >= 0
    decreases |ops|
  {
    hide MemOk, Moderate, Step, AnnouncesNegative, GivenUpBy;
    if ops == [] {
      StartModerate(p);
    } else {
      RunModerate(p, ops[..|ops| - 1]);
      StepModerate(p, RunOps(p, ops[..|ops| - 1]), ops[|ops| - 1]);
    }
  }

  lemma StartModerate(p: Params)
    ensures Moderate(p, Start)
  {
  }

  /** In every run in which no negative size was accepted, bytes stored and sizes announced stay below the counters, and
      the counters below the limit. */
  lemma RunAccounted(p: Params, ops: seq<Op>)
    ensures Sound(p, RunOps(p, ops))
    ensures !NegativeAnnounced(p, ops) ==>
      var m := RunOps(p, ops);
      Total(FileSizes(m.files)) + Total(Totals(m.temps)) <= m.size + Total(Totals(m.temps)) <= m.sizeMax <= p.allowedMemory
  {
    hide Sound, RunOps, NegativeAnnounced, GivenUp, Replaced;
    RunBalanced(p, ops);
    if !NegativeAnnounced(p, ops) { RunModerate(p, ops); }
  }

  /** With a negative size accepted, the maximal size can fall below the current one, and rise above the limit. */
  lemma NegativeSize(p: Params, n: int, hash: Hash)
    requires n > 0
    ensures var m := RunOps(p, [OpPrepare(0, -n), OpTerminate(hash, 0)]);
      m.sizeMax == -n < 0 == m.size && m.temps == map[]
    ensures var m := RunOps(p, [OpPrepare(0, -n), OpPrepare(1, p.allowedMemory + n), OpDelete(hash, 0)]);
      m.sizeMax == p.allowedMemory + n > p.allowedMemory
  {
    var a, b, c, d := OpPrepare(0, -n), OpTerminate(hash, 0), OpPrepare(1, p.allowedMemory + n), OpDelete(hash, 0);
    RunTwo(p, a, b);
    RunTwo(p, a, c);
    assert [a, c, d][..2] == [a, c];
  }

  lemma RunTwo(p: Params, a: Op, b: Op)
    ensures MemOk(Start) && MemOk(Step(p, Start, a).0)
    ensures RunOps(p, [a, b]) == Step(p, Step(p, Start, a).0, b).0
  {
    hide Step;
    StepOk(p, Start, a);
    assert [a, b][..1] == [a] && [a][..0] == [];
    assert RunOps(p, [a]) == Step(p, RunOps(p, []), a).0;
  }

  // ----- held bytes

  /** Since the placeholder was prepared, some chunk put bytes before the start of its file. */
  ghost predicate BelowZero(p: Params, ops: seq<Op>, id: int)
    decreases |ops|
  {
    if ops == [] then false
    else
      var front, op := ops[..|ops| - 1], ops[|ops| - 1];
      var before := RunOps(p, front);
      if op.OpPrepare? && op.id == id && Step(p, before, op).1 then false
      else BelowZero(p, front, id) || (op.OpUpload? && op.id == id && id in before.temps && ReachesBelow(before.temps[id], op.offset, op.data))
  }

  ghost predicate ReachesBelow(t: Temp, offset: int, data: bytes) {
    offset < 0 && offset < Bound(Call(offset, data, None), t.total)
  }

  /** What is held for a placeholder lies within its file exactly when no chunk put bytes before the start. */
  lemma {:induction false} HeldWithin(p: Params, ops: seq<Op>, id: int)
    requires id in RunOps(p, ops).temps
    ensures TempWithin(RunOps(p, ops).temps[id]) <==> !BelowZero(p, ops, id)
    decreases |ops|
  {
    if ops != [] {
      var front, op := ops[..|ops| - 1], ops[|ops| - 1];
      var before := RunOps(p, front);
      RunAccounted(p, front);
      hide TempWithin, ReachesBelow, Step, Sound;
      HeldStep(p, before, op, id);
      if !(op.OpPrepare? && op.id == id && Step(p, before, op).1) { HeldWithin(p, front, id); }
    }
  }

  lemma HeldStep(p: Params, m: Mem, op: Op, id: int)
    requires Sound(p, m) && id in Step(p, m, op).0.temps
    ensures
      if op.OpPrepare? && op.id == id && Step(p, m, op).1 then TempWithin(Step(p, m, op).0.temps[id])
      else
        && id in m.temps
        && (TempWithin(Step(p, m, op).0.temps[id]) <==>
            TempWithin(m.temps[id]) && !(op.OpUpload? && op.id == id && ReachesBelow(m.temps[id], op.offset, op.data)))
  {
    hide After, TempOk, BelowEnd, TempWithin, ReachesBelow, Finished, Total, Complete, Pieces, Joined, FileSizes, Totals;
    if op.OpPrepare? && op.id == id && Step(p, m, op).1 {
      EmptyWithin(op.total);
    } else if op.OpUpload? && op.id == id {
      var call := Call(op.offset, op.data, None);
      ChunkWithin(m.temps[id], op.offset, op.data);
      if Returned(m.temps[id].store, m.temps[id].total, call).Raised? { RaisedUnchanged(m.temps[id], call); }
    }
  }

  lemma EmptyWithin(total: int)
    ensures TempWithin(Temp(total, Empty()))
  {
  }

  lemma ChunkWithin(t: Temp, offset: int, data: bytes)
    requires TempOk(t) && BelowEnd(t)
    ensures Consistent(t.store)
    ensures var t' := t.(store := After(t.store, t.total, true, Call(offset, data, None)));
      TempWithin(t') <==> TempWithin(t) && !ReachesBelow(t, offset, data)
  {
    hide After;
    var call := Call(offset, data, None);
    AfterConsistent(t.store, t.total, true, call);
    if offset > t.total {
      AfterRaised(t.store, t.total, true, call);
    } else if ReachesBelow(t, offset, data) {
      assert offset in Range(offset, Bound(call, t.total));
    }
  }

  /** While no open placeholder has bytes before its start, bytes held count within the announced sizes. */
  lemma HeldAccounted(p: Params, ops: seq<Op>)
    requires !NegativeAnnounced(p, ops)
    requires forall id :: id in RunOps(p, ops).temps ==> !BelowZero(p, ops, id)
    ensures var m := RunOps(p, ops);
      Total(FileSizes(m.files)) + Total(HeldSizes(m.temps)) <= m.size + Total(Totals(m.temps)) <= m.sizeMax
  {
    RunAccounted(p, ops);
    RunModerate(p, ops);
    forall id | id in RunOps(p, ops).temps ensures TempWithin(RunOps(p, ops).temps[id]) { HeldWithin(p, ops, id); }
    hide RunOps, BelowZero, NegativeAnnounced;
    HeldWithinTotals(RunOps(p, ops).temps);
  }

  /** The file itself, sent as one more chunk, makes a placeholder hold more than was announced exactly when bytes lie
      before its start. */
  lemma OneMoreChunk(t: Temp, file: bytes)
    requires TempOk(t) && BelowEnd(t) && |file| == t.total
    ensures |Points(After(t.store, t.total, true, Call(0, file, None)).intervals)| <= t.total <==> TempWithin(t)
  {
    hide After, Points, Consistent, Good;
    AfterConsistent(t.store, t.total, true, Call(0, file, None));
    UnionWithin(Points(t.store.intervals), t.total);
  }

  lemma UnionWithin(held: set<int>, total: nat)
    ensures |held + Range(0, total)| <= total <==> forall q :: q in held ==> 0 <= q < total
  {
    var all := Range(0, total);
    RangeSize(0, total);
    if forall q :: q in held ==> 0 <= q < total {
      SubsetSize(held + all, all);
    } else {
      var q :| q in held && !(0 <= q < total);
      assert q !in all;
      SubsetSize(all + {q}, held + all);
    }
  }

  /** One byte announced, one byte sent before the start and one at it: two are held. */
  lemma HeldBeyond(p: Params, v: byte, w: byte)
    requires p.allowedMemory >= 1
    ensures var ops := [OpPrepare(0, 1), OpUpload(0, -1, [v]), OpUpload(0, 0, [w])];
      && 0 in RunOps(p, ops).temps && BelowZero(p, ops, 0)
      && RunOps(p, ops).temps[0].total == 1 && |Points(RunOps(p, ops).temps[0].store.intervals)| == 2
  {
    var a, b, c := OpPrepare(0, 1), OpUpload(0, -1, [v]), OpUpload(0, 0, [w]);
    var ops := [a, b, c];
    hide After, Points, Consistent, Good, BelowZero;
    RunTwo(p, a, b);
    assert ops[..2] == [a, b];
    var one := Step(p, Start, a).0;
    var two := Step(p, one, b).0;
    assert RunOps(p, ops) == Step(p, two, c).0;
    ChunkPoints(p, one, 0, -1, [v]);
    ChunkPoints(p, two, 0, 0, [w]);
    NoPoints();
    assert Points(RunOps(p, ops).temps[0].store.intervals) == {-1, 0};
    HeldWithin(p, ops, 0);
  }

  lemma NoPoints()
    ensures Points([]) == {}
  {
  }

  lemma ChunkPoints(p: Params, m: Mem, id: int, offset: int, data: bytes)
    requires MemOk(m) && id in m.temps && offset <= m.temps[id].total
    ensures var m' := UploadChunk(p, m, id, offset, data).0;
      && MemOk(m') && m'.temps.Keys == m.temps.Keys && m'.temps[id].total == m.temps[id].total
      && Points(m'.temps[id].store.intervals) ==
         Points(m.temps[id].store.intervals) + Range(offset, Bound(Call(offset, data, None), m.temps[id].total))
  {
    hide After, Points, Consistent, Good;
    StepOk(p, m, OpUpload(id, offset, data));
    AfterConsistent(m.temps[id].store, m.temps[id].total, true, Call(offset, data, None));
  }

  // ----- answers

  /** What a chunk is answered after any run: the number of points the placeholder holds afterwards less the number before,
      unless it is not there, the chunk starts past its end, or it then holds too many parts; only the first two leave
      everything as it was. */
  lemma UploadAnswers(p: Params, ops: seq<Op>, id: int, offset: int, data: bytes)
    ensures var m := RunOps(p, ops);
      var (m', r) := UploadChunk(p, m, id, offset, data);
      && (id !in m.temps ==> m' == m && r == Raised(NotExistingPlaceholder))
      && (id in m.temps && offset > m.temps[id].total ==> m' == m && r == Raised(ChunkOutOfRange))
      && (id in m.temps && offset <= m.temps[id].total ==>
            && m'.temps.Keys == m.temps.Keys && m'.temps[id].total == m.temps[id].total
            && (forall i :: i in m.temps && i != id ==> m'.temps[i] == m.temps[i]) && m'.files == m.files
            && var before, after := m.temps[id].store.intervals, m'.temps[id].store.intervals;
              && Points(after) == Points(before) + Range(offset, if offset + |data| < m.temps[id].total then offset + |data| else m.temps[id].total)
              && r == if |after| > p.maxParts then Raised(TooManyParts(|after|)) else Ok(|Points(after)| - |Points(before)|))
  {
    hide After, Points, Consistent, Good, Returned, RunOps;
    var m := RunOps(p, ops);
    if id in m.temps {
      StartsPast(m.temps[id], Call(offset, data, None));
      if offset <= m.temps[id].total {
        ChunkPoints(p, m, id, offset, data);
        AnswerGrowth(m.temps[id], Call(offset, data, None));
      }
    }
  }

  lemma StartsPast(t: Temp, call: Call)
    ensures Returned(t.store, t.total, call).Raised? <==> call.offset > t.total
  {
  }

  lemma AnswerGrowth(t: Temp, call: Call)
    requires TempOk(t) && call.offset <= t.total
    ensures Returned(t.store, t.total, call) == Ok(|Points(After(t.store, t.total, true, call).intervals)| - |Points(t.store.intervals)|)
  {
    hide Points, Growth, NewKeys, Upload, Separated, Tiled, Covered, Good;
    var a, b := call.offset, Bound(call, t.total);
    AfterIsUpload(t.store, t.total, true, call);
    UploadGrowth(t.store, a, b, NewValues(true, call, NewKeys(t.store, a, b)));
  }

  /** What the chunks for a placeholder have been answered since it was prepared, in all. */
  ghost function Answered(p: Params, ops: seq<Op>, id: int): int
    decreases |ops|
  {
    if ops == [] then 0
    else
      var front, op := ops[..|ops| - 1], ops[|ops| - 1];
      var before := RunOps(p, front);
      if op.OpPrepare? && op.id == id && Step(p, before, op).1 then 0
      else if op.OpUpload? && op.id == id then
        var r := UploadChunk(p, before, id, op.offset, op.data).1;
        Answered(p, front, id) + (if r.Ok? then r.value else 0)
      else Answered(p, front, id)
  }

  /** No chunk for it has been refused for too many parts since. */
  ghost predicate NeverTooMany(p: Params, ops: seq<Op>, id: int)
    decreases |ops|
  {
    ops == [] ||
    var front, op := ops[..|ops| - 1], ops[|ops| - 1];
    var before := RunOps(p, front);
    (op.OpPrepare? && op.id == id && Step(p, before, op).1)
    || (NeverTooMany(p, front, id)
        && (op.OpUpload? && op.id == id ==> !UploadChunk(p, before, id, op.offset, op.data).1.Raised?
                                            || !UploadChunk(p, before, id, op.offset, op.data).1.error.TooManyParts?))
  }

  /** The answers add up to the bytes held, and so tell when the upload is complete. */
  lemma {:induction false} AnswersAddUp(p: Params, ops: seq<Op>, id: int)
    requires id in RunOps(p, ops).temps && NeverTooMany(p, ops, id)
    ensures var t := RunOps(p, ops).temps[id];
      && Answered(p, ops, id) == |Points(t.store.intervals)|
      && (Complete(t.store, t.total) <==> Answered(p, ops, id) == t.total)
    decreases |ops|
  {
    hide UploadChunk, Points, Step, TempOk, Filled;
    assert ops != [];
    var front, op := ops[..|ops| - 1], ops[|ops| - 1];
    var m := RunOps(p, front);
    StepAnswers(p, front, op, id);
    if !(op.OpPrepare? && op.id == id && Step(p, m, op).1) { AnswersAddUp(p, front, id); }
    CompleteWhen(RunOps(p, ops).temps[id]);
  }

  lemma CompleteWhen(t: Temp)
    requires TempOk(t)
    ensures Complete(t.store, t.total) <==> |Points(t.store.intervals)| == t.total
  {
    FilledIsCardinality(t.store.intervals);
  }

  /** How one step moves what is held for a placeholder. */
  lemma StepAnswers(p: Params, ops: seq<Op>, op: Op, id: int)
    requires id in Step(p, RunOps(p, ops), op).0.temps
    ensures var m := RunOps(p, ops);
      var m' := Step(p, m, op).0;
      var held' := |Points(m'.temps[id].store.intervals)|;
      if op.OpPrepare? && op.id == id && Step(p, m, op).1 then held' == 0
      else
        && id in m.temps
        && (op.OpUpload? && op.id == id ==>
              var r := UploadChunk(p, m, id, op.offset, op.data).1;
              held' == |Points(m.temps[id].store.intervals)| + (if r.Ok? then r.value else 0) || (r.Raised? && r.error.TooManyParts?))
        && (!(op.OpUpload? && op.id == id) ==> m'.temps[id] == m.temps[id])
  {
    hide Points, RunOps, MemOk, After, Finished, Returned;
    NoPoints();
    if op.OpUpload? { UploadAnswers(p, ops, op.id, op.offset, op.data); }
  }

  /** What a terminate does, after any run: an upload that is not whole is dropped in silence; one that is, but not as one
      stretch from 0, or with another hash, is refused and kept; and otherwise exactly the bytes held are stored. */
  lemma TerminateAnswers(p: Params, ops: seq<Op>, hash: Hash, id: int) returns (data: bytes)
    requires id in RunOps(p, ops).temps
    ensures var m := RunOps(p, ops);
      var (m', r) := Terminate(p, m, hash, id);
      var t := m.temps[id];
      var held := Points(t.store.intervals);
      if |held| != t.total then r == Ok(()) && m' == m.(temps := m.temps - {id})
      else if held != Range(0, t.total) then r == Raised(BadIntervalUnion) && m' == m
      else
        && |data| == t.total && (forall q :: 0 <= q < t.total ==> ByteAt(t.store.slices, q) == Some(data[q]))
        && if p.digest(data) != hash then r == Raised(HashNotMatching) && m' == m
           else r == Ok(()) && m' == Mem(m.size + |data|, m.sizeMax, m.files[hash := data], m.temps - {id})
  {
    var t := RunOps(p, ops).temps[id];
    hide RunOps, Points, Filled, Pieces, Joined, ByteAt, Range, Consistent, Good;
    CompleteWhen(t);
    data := [];
    if Complete(t.store, t.total) { data := WholeUpload(t); }
  }

  lemma WholeUpload(t: Temp) returns (data: bytes)
    requires TempOk(t) && Complete(t.store, t.total)
    ensures var pieces := Pieces(t.store.slices, 0);
      && (pieces.Ok? <==> Points(t.store.intervals) == Range(0, t.total))
      && (pieces.Ok? ==>
            && data == Joined(pieces.value) && |data| == t.total
            && forall q :: 0 <= q < t.total ==> ByteAt(t.store.slices, q) == Some(data[q]))
  {
    hide Points, Filled, Pieces, Joined, ByteAt, Separated, Tiled, Covered, Good;
    FilledIsCardinality(t.store.intervals);
    PiecesCover(t.store.slices, true, 0);
    data := [];
    if Pieces(t.store.slices, 0).Ok? {
      PiecesBytes(t.store.slices, 0);
      data := Joined(Pieces(t.store.slices, 0).value);
    }
  }

  /** A prepare is answered, after any run, with the room left if that is not enough, then with a refusal if the
      placeholder is in use. */
  lemma PrepareAnswers(p: Params, ops: seq<Op>, id: int, total: int)
    ensures var m, left := RunOps(p, ops), p.allowedMemory - Reserved(p, ops);
      Prepare(p, m, id, total).1 ==
        if total > left then Raised(NotEnoughSpace(total, left)) else if id in m.temps then Raised(AlreadyUploading) else Ok(())
  {
    hide RunOps, Reserved;
    RoomIsNeverReturned(p, ops);
  }

  /** Cancelling is answered with an error for a placeholder that is not there, and also, although it has gone through,
      when a file of that hash is stored; deleting a file only when there is none. */
  lemma DeleteAnswers(m: Mem, hash: Hash, id: int)
    ensures var (m', r) := Delete(m, hash, id);
      && (r.Ok? <==> if id >= 0 then id in m.temps && hash !in m.files else hash in m.files)
      && (r == Raised(UploadedMeanwhile) <==> id >= 0 && id in m.temps && hash in m.files)
      && (r == Raised(KeyError) ==> m' == m)
      && (id >= 0 ==> id !in m'.temps && m'.files == m.files) && (id < 0 ==> hash !in m'.files && m'.temps == m.temps)
  {
  }

  // ----- room is never given back

  /** Announced sizes of accepted uploads, less those cancelled through their placeholder. */
  ghost function Reserved(p: Params, ops: seq<Op>): int {
    if ops == [] then 0
    else
      var before, op := RunOps(p, ops[..|ops| - 1]), ops[|ops| - 1];
      Reserved(p, ops[..|ops| - 1]) + ReservedBy(p, before, op)
  }

  ghost function ReservedBy(p: Params, m: Mem, op: Op): int
    requires MemOk(m)
  {
    if op.OpPrepare? && Step(p, m, op).1 then op.total
    else if op.OpDelete? && op.id >= 0 && op.id in m.temps then 0 - m.temps[op.id].total
    else 0
  }

  lemma StepReserves(p: Params, m: Mem, op: Op)
    requires MemOk(m)
    ensures Step(p, m, op).0.sizeMax == m.sizeMax + ReservedBy(p, m, op)
  {
    hide After, Finished;
  }

  /** Neither finishing, nor abandoning, nor deleting a file gives room back: over a whole run, accepted uploads
      that were not cancelled must fit in the memory limit together. */
  lemma {:induction false} RoomIsNeverReturned(p: Params, ops: seq<Op>)
    ensures RunOps(p, ops).sizeMax == Reserved(p, ops)
    ensures !NegativeAnnounced(p, ops) ==> Reserved(p, ops) <= p.allowedMemory
    decreases |ops|
  {
    RunAccounted(p, ops);
    hide Step, Sound, ReservedBy, AnnouncesNegative;
    if ops != [] {
      RoomIsNeverReturned(p, ops[..|ops| - 1]);
      StepReserves(p, RunOps(p, ops[..|ops| - 1]), ops[|ops| - 1]);
    }
  }

  lemma RaisedUnchanged(t: Temp, call: Call)
    requires TempOk(t) && Returned(t.store, t.total, call).Raised?
    ensures After(t.store, t.total, true, call) == t.store
  {
  }

  // ----- the class

  /** The objects behind a table of unfinished uploads. */
  ghost function Objects(temps: map<int, BytesIntervalUnion>): set<object> {
    (set i | i in temps :: temps[i] as object) + (set i | i in temps :: temps[i].current as object)
  }

  ghost function TempOf(u: BytesIntervalUnion): Temp
    reads u, u.current
  {
    Temp(u.totalSize, u.Abs())
  }

  ghost function TempsOf(temps: map<int, BytesIntervalUnion>): map<int, Temp>
    reads Objects(temps)
  {
    map i | i in temps :: TempOf(temps[i])
  }

  lemma TempsOfPut(temps: map<int, BytesIntervalUnion>, id: int, u: BytesIntervalUnion)
    ensures TempsOf(temps[id := u]) == TempsOf(temps)[id := TempOf(u)]
  {
  }

  lemma TempsOfAt(temps: map<int, BytesIntervalUnion>, id: int)
    ensures id in TempsOf(temps) <==> id in temps
    ensures id in temps ==> TempsOf(temps)[id] == TempOf(temps[id])
  {
  }

  lemma TempsOfDrop(temps: map<int, BytesIntervalUnion>, id: int)
    ensures TempsOf(temps - {id}) == TempsOf(temps) - {id}
  {
  }

  ghost predicate Apart(temps: map<int, BytesIntervalUnion>) {
    forall i, j :: i in temps && j in temps && i != j ==> temps[i] != temps[j] && temps[i].current != temps[j].current
  }

  class InMemBackend {
    const params: Params
    var currentSize: int
    var currentSizeMax: int
    var files: map<Hash, bytes>
    var temps: map<int, BytesIntervalUnion>

    ghost function Footprint(): set<object>
      reads this
    {
      Objects(temps)
    }

    ghost function Abs(): Mem
      reads this, Footprint()
    {
      Mem(currentSize, currentSizeMax, files, TempsOf(temps))
    }

    ghost predicate Valid()
      reads this, Footprint()
    {
      && this !in Footprint()
      && (forall i :: i in temps ==> temps[i].Valid() && temps[i].storeData)
      && Apart(temps)
    }

    constructor (params: Params)
      ensures Valid() && Abs() == Start && this.params == params && fresh(Footprint())
    {
      this.params := params;
      currentSize, currentSizeMax, files, temps := 0, 0, map[], map[];
    }

    method PreparePlaceholder(id: int, total: int) returns (r: Outcome<(), Error>)
      requires Valid()
      modifies this
      ensures Valid() && fresh(Footprint() - old(Footprint()))
      ensures Abs() == Prepare(params, old(Abs()), id, total).0
      ensures r == Prepare(params, old(Abs()), id, total).1
    {
      TempsOfAt(temps, id);
      hide Consistent, Good, TempsOf;
      if currentSizeMax + total > params.allowedMemory {
        return Raised(NotEnoughSpace(total, params.allowedMemory - currentSizeMax));
      }
      if id in temps {
        return Raised(AlreadyUploading);
      }
      var t := new BytesIntervalUnion(total, true);
      TempsOfPut(temps, id, t);
      temps := temps[id := t];
      currentSizeMax := currentSizeMax + total;
      r := Ok(());
    }

    /** Add one chunk to one upload; the others are not touched. */
    method UnionInto(id: int, offset: int, data: bytes) returns (written: Outcome<int, Failure>)
      requires Valid() && id in temps
      modifies temps[id], temps[id].current
      ensures Valid()
      ensures TempOk(old(TempOf(temps[id])))
      ensures var t, call := old(TempOf(temps[id])), Call(offset, data, None);
        && written == Returned(t.store, t.total, call)
        && TempsOf(temps) == old(TempsOf(temps))[id := Temp(t.total, After(t.store, t.total, true, call))]
    {
      hide Consistent, Good, After, Returned;
      var t := temps[id];
      written := t.UnionFrom(offset, data, None);
      forall i | i in temps && i != id
        ensures temps[i].Valid() && TempOf(temps[i]) == old(TempOf(temps[i]))
      {
        assert temps[i] != t && temps[i].current != t.current;
      }
    }

    method UploadChunkAt(id: int, offset: int, data: bytes) returns (r: Outcome<int, Error>)
      requires Valid()
      modifies Footprint()
      ensures Valid() && MemOk(old(Abs()))
      ensures Abs() == UploadChunk(params, old(Abs()), id, offset, data).0
      ensures r == UploadChunk(params, old(Abs()), id, offset, data).1
    {
      if id !in temps {
        return Raised(NotExistingPlaceholder);
      }
      hide Consistent, Good, After, Returned, Apart;
      ghost var before, call := TempOf(temps[id]), Call(offset, data, None);
      var written := UnionInto(id, offset, data);
      if written.Raised? {
        RaisedUnchanged(before, call);
        return Raised(ChunkOutOfRange);
      }
      assert TempsOf(temps)[id] == TempOf(temps[id]);
      if |temps[id].current.intervals| > params.maxParts {
        return Raised(TooManyParts(|temps[id].current.intervals|));
      }
      r := Ok(written.value);
    }

    method CheckFinished(t: BytesIntervalUnion, hash: Hash) returns (r: Outcome<Option<bytes>, Error>)
      requires t.Valid() && t.storeData
      ensures r == Finished(params, TempOf(t), hash)
    {
      var complete := t.IsComplete();
      if !complete {
        return Ok(None);
      }
      var chunks, raised := t.CompleteDataGen();
      if raised {
        return Raised(BadIntervalUnion);
      }
      if params.digest(Joined(chunks)) != hash {
        return Raised(HashNotMatching);
      }
      var contents := t.CompleteData();
      r := Ok(Some(contents.value.data));
    }

    method UploadTerminate(hash: Hash, id: int) returns (r: Outcome<(), Error>)
      requires Valid()
      modifies this
      ensures Valid() && Footprint() <= old(Footprint())
      ensures Abs() == Terminate(params, old(Abs()), hash, id).0
      ensures r == Terminate(params, old(Abs()), hash, id).1
    {
      TempsOfAt(temps, id);
      hide Finished, Consistent, Good, Apart, TempsOf;
      if id !in temps {
        return Raised(KeyError);
      }
      var content := CheckFinished(temps[id], hash);
      if content.Raised? {
        return Raised(content.error);
      }
      if content.value.Some? {
        files := files[hash := content.value.value];
        currentSize := currentSize + |files[hash]|;
      }
      Drop(id);
      r := Ok(());
    }

    method Drop(id: int)
      requires Valid()
      modifies `temps
      ensures Valid() && Footprint() <= old(Footprint())
      ensures Abs() == old(Abs()).(temps := old(Abs()).temps - {id})
    {
      hide Consistent, Good;
      TempsOfDrop(temps, id);
      temps := temps - {id};
    }

    method DownloadChunk(hash: Hash, offset: nat, size: nat) returns (r: Outcome<bytes, Error>)
      ensures r == if hash in files then Ok(Window(files[hash], offset, size)) else Raised(NotExistingContent)
    {
      if hash !in files {
        return Raised(NotExistingContent);
      }
      r := Ok(Window(files[hash], offset, size));
    }

    method SizeOfContent(hash: Hash) returns (r: Outcome<nat, Error>)
      ensures r == if hash in files then Ok(|files[hash]|) else Raised(NotExistingContent)
    {
      if hash !in files {
        return Raised(NotExistingContent);
      }
      r := Ok(|files[hash]|);
    }

    method DeleteResource(hash: Hash, id: int) returns (r: Outcome<(), Error>)
      requires Valid()
      modifies this
      ensures Valid() && Footprint() <= old(Footprint())
      ensures Abs() == Delete(old(Abs()), hash, id).0
      ensures r == Delete(old(Abs()), hash, id).1
    {
      TempsOfAt(temps, id);
      hide Consistent, Good, Apart, TempsOf;
      if id >= 0 {
        if id !in temps {
          return Raised(KeyError);
        }
        currentSizeMax := currentSizeMax - temps[id].totalSize;
        Drop(id);
        if hash in files {
          return Raised(UploadedMeanwhile);
        }
      } else {
        if hash !in files {
          return Raised(KeyError);
        }
        currentSize := currentSize - |files[hash]|;
        files := files - {hash};
      }
      r := Ok(());
    }
  }
}
