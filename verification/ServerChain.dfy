/** A faster and a slower server written to together: a placeholder lives as long as one of the two still takes part.
    What the servers answer comes from outside and may be anything. */
module ServerChain {
  import opened Common

  type Hash = int

  /** A placeholder: a hash and an index. */
  datatype Key = Key(hash: Hash, index: int)

  datatype Chunk = Chunk(offset: int, data: bytes)

  datatype ChainError = AlreadyUploadedContent | NotExistingPlaceholder | AllServersFailed

  /** Which of the two servers still take part. */
  datatype Flags = Flags(faster: bool, slower: bool) {
    predicate Any() { faster || slower }
  }

  datatype Chain = Chain(prepared: map<Key, Flags>, aborted: set<Key>, successful: set<Key>) {
    predicate Terminal(k: Key) { k in aborted || k in successful }
  }

  // ----- the three operations, given the servers' answers

  function Prepare(c: Chain, k: Key, faster: bool, slower: bool): (Chain, Outcome<int, ChainError>) {
    if c.Terminal(k) then (c, Raised(AlreadyUploadedContent))
    else (c.(prepared := c.prepared[k := Flags(faster, slower)]), if faster || slower then Ok(0) else Raised(AllServersFailed))
  }

  /** The number of bytes reported: the smaller of two non-zero answers, else the larger. */
  function Written(w1: Option<int>, w2: Option<int>): int {
    var a, b := if w1.Some? then w1.value else 0, if w2.Some? then w2.value else 0;
    if a != 0 && b != 0 then (if a < b then a else b) else (if a < b then b else a)
  }

  /** A server that wrote anything wrote at least what is reported, and nothing is reported only if nothing was
      written. */
  lemma ReportedIsWritten(w1: Option<int>, w2: Option<int>)
    requires (w1.Some? ==> w1.value >= 0) && (w2.Some? ==> w2.value >= 0)
    ensures var n := Written(w1, w2);
      && (n > 0 ==> Some(n) == w1 || Some(n) == w2)
      && (w1.Some? && w1.value > 0 ==> 0 < n <= w1.value)
      && (w2.Some? && w2.value > 0 ==> 0 < n <= w2.value)
  {
  }

  /** Only servers still taking part are asked; one that fails no longer takes part. */
  function UploadChunk(c: Chain, k: Key, w1: Option<int>, w2: Option<int>): (Chain, Outcome<int, ChainError>) {
    if c.Terminal(k) then (c, Raised(AlreadyUploadedContent))
    else if k !in c.prepared then (c, Raised(NotExistingPlaceholder))
    else
      var a1, a2 := if c.prepared[k].faster then w1 else None, if c.prepared[k].slower then w2 else None;
      var c' := c.(prepared := c.prepared[k := Flags(a1.Some?, a2.Some?)]);
      if a1.None? && a2.None? then (c'.(aborted := c.aborted + {k}), Raised(AllServersFailed))
      else (c', Ok(Written(a1, a2)))
  }

  /** The servers taking part are asked to finish; what they answer is not looked at. */
  function Terminate(c: Chain, k: Key): (Chain, Outcome<int, ChainError>) {
    if c.Terminal(k) then (c, Raised(AlreadyUploadedContent))
    else if k !in c.prepared then (c, Raised(NotExistingPlaceholder))
    else if !c.prepared[k].Any() then (c.(aborted := c.aborted + {k}), Raised(AllServersFailed))
    else (c.(successful := c.successful + {k}), Ok(0))
  }

  // ----- the chain together with what the servers hold

  datatype Op =
    | OpPrepare(k: Key, faster: bool, slower: bool)
    | OpUpload(k: Key, chunk: Chunk, w1: Option<int>, w2: Option<int>)
    | OpTerminate(k: Key, faster: bool, slower: bool)

  /** The chunks each server has taken since it was last prepared, those acknowledged since the last prepare, and which
      servers have answered an acknowledged terminate well. */
  datatype World = World(chain: Chain, fast: map<Key, seq<Chunk>>, slow: map<Key, seq<Chunk>>, acked: map<Key, seq<Chunk>>,
                         finished: map<Key, Flags>)

  function StepChain(c: Chain, op: Op): (Chain, Outcome<int, ChainError>) {
    match op
    case OpPrepare(k, faster, slower) => Prepare(c, k, faster, slower)
    case OpUpload(k, _, w1, w2) => UploadChunk(c, k, w1, w2)
    case OpTerminate(k, _, _) => Terminate(c, k)
  }

  function Chunks(held: map<Key, seq<Chunk>>, k: Key): seq<Chunk> { if k in held then held[k] else [] }

  /** A server that was asked: it takes the chunk, or it fails and drops the upload. */
  function Take(held: map<Key, seq<Chunk>>, k: Key, asked: bool, ok: bool, chunk: Chunk): map<Key, seq<Chunk>> {
    if !asked then held else if ok then held[k := Chunks(held, k) + [chunk]] else held - {k}
  }

  function Next(w: World, op: Op): World {
    var (c', r) := StepChain(w.chain, op);
    match op
    case OpPrepare(k, faster, slower) =>
      if w.chain.Terminal(k) then w.(chain := c')
      else World(c', if faster then w.fast[k := []] else w.fast, if slower then w.slow[k := []] else w.slow, w.acked[k := []],
                 w.finished)
    case OpUpload(k, chunk, w1, w2) =>
      if w.chain.Terminal(k) || k !in w.chain.prepared then w.(chain := c')
      else
        World(c', Take(w.fast, k, w.chain.prepared[k].faster, w1.Some?, chunk),
              Take(w.slow, k, w.chain.prepared[k].slower, w2.Some?, chunk),
              if r.Ok? then w.acked[k := Chunks(w.acked, k) + [chunk]] else w.acked, w.finished)
    case OpTerminate(k, faster, slower) =>
      if r.Raised? then w.(chain := c')
      else w.(chain := c', finished := w.finished[k := Flags(w.chain.prepared[k].faster && faster, w.chain.prepared[k].slower && slower)])
  }

  function Start(): World { World(Chain(map[], {}, {}), map[], map[], map[], map[]) }

  function Run(ops: seq<Op>): World {
    if ops == [] then Start() else Next(Run(ops[..|ops| - 1]), ops[|ops| - 1])
  }

  /** What holds of one placeholder: a server that still takes part holds exactly the acknowledged chunks; an aborted
      placeholder has no such server, a successful one has; and without any the placeholder is aborted or empty. */
  ghost predicate KeyOk(w: World, k: Key) {
    && !(k in w.chain.aborted && k in w.chain.successful)
    && (k !in w.chain.prepared ==> !w.chain.Terminal(k) && Chunks(w.acked, k) == [])
    && (k in w.chain.prepared ==>
          var f := w.chain.prepared[k];
          && (f.faster ==> Chunks(w.fast, k) == Chunks(w.acked, k))
          && (f.slower ==> Chunks(w.slow, k) == Chunks(w.acked, k))
          && (k in w.chain.aborted ==> !f.Any())
          && (k in w.chain.successful ==> f.Any())
          && (!f.Any() && k !in w.chain.aborted ==> Chunks(w.acked, k) == []))
  }

  /** Everything the world records about one placeholder. */
  ghost predicate SameAt(v: World, w: World, k: Key) {
    && (k in v.chain.aborted <==> k in w.chain.aborted) && (k in v.chain.successful <==> k in w.chain.successful)
    && (k in v.chain.prepared <==> k in w.chain.prepared)
    && (k in v.chain.prepared ==> v.chain.prepared[k] == w.chain.prepared[k])
    && Chunks(v.fast, k) == Chunks(w.fast, k) && Chunks(v.slow, k) == Chunks(w.slow, k) && Chunks(v.acked, k) == Chunks(w.acked, k)
    && (k in v.finished <==> k in w.finished) && (k in v.finished ==> v.finished[k] == w.finished[k])
  }

  /** Operations on other placeholders, and on terminal ones, change nothing of this one. */
  lemma OthersStay(w: World, op: Op, k: Key)
    requires op.k != k || w.chain.Terminal(k)
    ensures SameAt(w, Next(w, op), k)
  {
    if w.chain.Terminal(op.k) {
      Refused(w, op);
      hide Next;
    } else if op.OpUpload? {
      hide Next;
      OtherUpload(w, op.k, op.chunk, op.w1, op.w2, k);
    } else {
      hide Next;
      OtherRest(w, op, k);
    }
  }

  lemma OtherRest(w: World, op: Op, k: Key)
    requires op.k != k && !op.OpUpload?
    ensures SameAt(w, Next(w, op), k)
  {
    hide Next, StepChain;
    NextChain(w, op);
    OtherChain(w.chain, op, k);
    RestHeld(w, op, k);
  }

  lemma RestHeld(w: World, op: Op, k: Key)
    requires op.k != k && !op.OpUpload?
    ensures var v := Next(w, op);
      && Chunks(v.fast, k) == Chunks(w.fast, k) && Chunks(v.slow, k) == Chunks(w.slow, k) && Chunks(v.acked, k) == Chunks(w.acked, k)
      && (k in v.finished <==> k in w.finished) && (k in v.finished ==> v.finished[k] == w.finished[k])
  {
  }

  lemma Refused(w: World, op: Op)
    requires w.chain.Terminal(op.k)
    ensures Next(w, op) == w
  {
  }

  lemma OtherUpload(w: World, j: Key, chunk: Chunk, w1: Option<int>, w2: Option<int>, k: Key)
    requires j != k
    ensures SameAt(w, Next(w, OpUpload(j, chunk, w1, w2)), k)
  {
    hide Next, StepChain;
    NextChain(w, OpUpload(j, chunk, w1, w2));
    OtherChain(w.chain, OpUpload(j, chunk, w1, w2), k);
    OtherHeld(w, j, chunk, w1, w2, k);
  }

  lemma OtherHeld(w: World, j: Key, chunk: Chunk, w1: Option<int>, w2: Option<int>, k: Key)
    requires j != k
    ensures var v := Next(w, OpUpload(j, chunk, w1, w2));
      && Chunks(v.fast, k) == Chunks(w.fast, k) && Chunks(v.slow, k) == Chunks(w.slow, k) && Chunks(v.acked, k) == Chunks(w.acked, k)
      && v.finished == w.finished
  {
    hide Take, StepChain;
    if j in w.chain.prepared {
      TakeElsewhere(w.fast, j, w.chain.prepared[j].faster, w1.Some?, chunk, k);
      TakeElsewhere(w.slow, j, w.chain.prepared[j].slower, w2.Some?, chunk, k);
    }
  }

  lemma TakeElsewhere(held: map<Key, seq<Chunk>>, j: Key, asked: bool, ok: bool, chunk: Chunk, k: Key)
    requires j != k
    ensures Chunks(Take(held, j, asked, ok, chunk), k) == Chunks(held, k)
  {
  }

  lemma UploadKeeps(w: World, k: Key, chunk: Chunk, w1: Option<int>, w2: Option<int>)
    requires KeyOk(w, k) && !w.chain.Terminal(k)
    ensures KeyOk(Next(w, OpUpload(k, chunk, w1, w2)), k)
  {
  }

  lemma NextKeeps(w: World, op: Op, k: Key)
    requires KeyOk(w, k)
    ensures KeyOk(Next(w, op), k)
  {
    if op.k != k || w.chain.Terminal(k) {
      hide Next;
      OthersStay(w, op, k);
    } else {
      match op
      case OpPrepare(_, _, _) =>
      case OpUpload(_, chunk, w1, w2) => UploadKeeps(w, k, chunk, w1, w2);
      case OpTerminate(_, _, _) =>
    }
  }

  /** The life cycle holds of every placeholder after any run. */
  lemma {:induction false} RunKeeps(ops: seq<Op>, k: Key)
    ensures KeyOk(Run(ops), k)
  {
    if ops != [] {
      hide KeyOk, Next;
      RunKeeps(ops[..|ops| - 1], k);
      NextKeeps(Run(ops[..|ops| - 1]), ops[|ops| - 1], k);
    } else {
      assert KeyOk(Start(), k);
    }
  }

  /** After an acknowledged chunk some server takes part, and each one that does holds every acknowledged chunk. */
  lemma AcknowledgedIsHeld(ops: seq<Op>, k: Key, chunk: Chunk, w1: Option<int>, w2: Option<int>)
    requires StepChain(Run(ops).chain, OpUpload(k, chunk, w1, w2)).1.Ok?
    ensures var w := Run(ops + [OpUpload(k, chunk, w1, w2)]);
      && w.acked[k] == Chunks(Run(ops).acked, k) + [chunk]
      && k in w.chain.prepared && w.chain.prepared[k].Any()
      && (w.chain.prepared[k].faster ==> Chunks(w.fast, k) == w.acked[k])
      && (w.chain.prepared[k].slower ==> Chunks(w.slow, k) == w.acked[k])
  {
    var all := ops + [OpUpload(k, chunk, w1, w2)];
    assert all[..|all| - 1] == ops;
    RunKeeps(all, k);
    hide KeyOk;
    RunKeeps(ops, k);
  }

  /** What a successful placeholder acknowledged is held in full by one of the servers. */
  lemma SuccessIsHeld(ops: seq<Op>, k: Key)
    requires k in Run(ops).chain.successful
    ensures Chunks(Run(ops).fast, k) == Chunks(Run(ops).acked, k) || Chunks(Run(ops).slow, k) == Chunks(Run(ops).acked, k)
  {
    RunKeeps(ops, k);
  }

  // ----- finishing

  /** One of the servers finished the upload and holds everything acknowledged. */
  predicate FinishedInFull(w: World, k: Key) {
    && k in w.finished
    && ((w.finished[k].faster && Chunks(w.fast, k) == Chunks(w.acked, k))
        || (w.finished[k].slower && Chunks(w.slow, k) == Chunks(w.acked, k)))
  }

  /** A terminate is acknowledged exactly for a prepared placeholder that has not been terminated yet and has a server
      taking part, however the servers answer. */
  lemma TerminateAcknowledged(ops: seq<Op>, k: Key, faster: bool, slower: bool)
    ensures var c := Run(ops).chain;
      StepChain(c, OpTerminate(k, faster, slower)).1.Ok? <==> k in c.prepared && c.prepared[k].Any() && k !in c.successful
  {
    RunKeeps(ops, k);
  }

  /** After an acknowledged terminate the upload is finished in full somewhere exactly when a server taking part has
      answered well. */
  lemma TerminateFinishes(ops: seq<Op>, k: Key, faster: bool, slower: bool)
    requires StepChain(Run(ops).chain, OpTerminate(k, faster, slower)).1.Ok?
    ensures var flags := Run(ops).chain.prepared[k];
      FinishedInFull(Run(ops + [OpTerminate(k, faster, slower)]), k) <==> (flags.faster && faster) || (flags.slower && slower)
  {
    var all := ops + [OpTerminate(k, faster, slower)];
    assert all[..|all| - 1] == ops;
    RunKeeps(ops, k);
  }

  /** Each successful placeholder owes it to one terminate, and is finished in full somewhere exactly when a server
      that took part then answered it well. */
  lemma {:induction false} SuccessIsFinished(ops: seq<Op>, k: Key) returns (i: nat)
    requires k in Run(ops).chain.successful
    ensures i < |ops| && ops[i].OpTerminate? && ops[i].k == k && k in Run(ops[..i]).chain.prepared
    ensures var flags := Run(ops[..i]).chain.prepared[k];
      FinishedInFull(Run(ops), k) <==> (flags.faster && ops[i].faster) || (flags.slower && ops[i].slower)
    decreases |ops|
  {
    hide FinishedInFull, Next;
    var front, last := ops[..|ops| - 1], ops[|ops| - 1];
    assert ops == front + [last];
    if k in Run(front).chain.successful {
      i := SuccessIsFinished(front, k);
      assert ops[..i] == front[..i];
      StaysFinished(Run(front), last, k);
    } else {
      OnlyTerminateSucceeds(Run(front), last, k);
      i := |ops| - 1;
      TerminateFinishes(front, k, last.faster, last.slower);
    }
  }

  lemma StaysFinished(w: World, op: Op, k: Key)
    requires w.chain.Terminal(k)
    ensures FinishedInFull(Next(w, op), k) <==> FinishedInFull(w, k)
  {
    hide Next;
    OthersStay(w, op, k);
  }

  lemma OnlyTerminateSucceeds(w: World, op: Op, k: Key)
    requires k !in w.chain.successful && k in Next(w, op).chain.successful
    ensures op.OpTerminate? && op.k == k && StepChain(w.chain, op).1.Ok?
  {
  }

  /** Both servers prepared, both failing to finish: the placeholder is successful and nothing is finished. */
  lemma SuccessWithNothingFinished(k: Key)
    ensures var w := Run([OpPrepare(k, true, true), OpTerminate(k, false, false)]);
      k in w.chain.successful && !FinishedInFull(w, k)
  {
    var a, b := OpPrepare(k, true, true), OpTerminate(k, false, false);
    assert [a, b][..1] == [a] && [a][..0] == [];
    assert Run([a, b]) == Next(Run([a]), b) && Run([a]) == Next(Start(), a);
  }

  // ----- who takes part, told from the operations alone

  /** The placeholder has been given up by all servers, or terminated. */
  ghost predicate Over(ops: seq<Op>, k: Key)
    decreases |ops|, 1
  {
    GivenUp(ops, k) || Ended(ops, k)
  }

  /** A chunk, or a terminate, found no server to answer. */
  ghost predicate GivenUp(ops: seq<Op>, k: Key)
    decreases |ops|, 0
  {
    ops != [] &&
    var front, op := ops[..|ops| - 1], ops[|ops| - 1];
    GivenUp(front, k)
    || (op.k == k && Begun(front, k) && !Over(front, k)
        && ((op.OpUpload? && !(TakesPart(front, k, true) && op.w1.Some?) && !(TakesPart(front, k, false) && op.w2.Some?))
            || (op.OpTerminate? && !TakesPart(front, k, true) && !TakesPart(front, k, false))))
  }

  /** A terminate came while some server took part. */
  ghost predicate Ended(ops: seq<Op>, k: Key)
    decreases |ops|, 0
  {
    ops != [] &&
    var front, op := ops[..|ops| - 1], ops[|ops| - 1];
    Ended(front, k)
    || (op.OpTerminate? && op.k == k && !Over(front, k) && (TakesPart(front, k, true) || TakesPart(front, k, false)))
  }

  ghost predicate Begun(ops: seq<Op>, k: Key) {
    ops != [] && (Begun(ops[..|ops| - 1], k) || (ops[|ops| - 1].OpPrepare? && ops[|ops| - 1].k == k))
  }

  /** The server went along with the last prepare and has answered every chunk since. */
  ghost predicate TakesPart(ops: seq<Op>, k: Key, first: bool)
    decreases |ops|, 0
  {
    ops != [] &&
    var front, op := ops[..|ops| - 1], ops[|ops| - 1];
    if op.k != k || Over(front, k) || op.OpTerminate? then TakesPart(front, k, first)
    else if op.OpPrepare? then (if first then op.faster else op.slower)
    else TakesPart(front, k, first) && (if first then op.w1.Some? else op.w2.Some?)
  }

  /** The chain has recorded exactly that. */
  ghost predicate AsTold(c: Chain, ops: seq<Op>, k: Key) {
    && (k in c.prepared <==> Begun(ops, k))
    && (k in c.aborted <==> GivenUp(ops, k)) && (k in c.successful <==> Ended(ops, k))
    && (k in c.prepared ==> c.prepared[k] == Flags(TakesPart(ops, k, true), TakesPart(ops, k, false)))
    && (!Begun(ops, k) ==> !TakesPart(ops, k, true) && !TakesPart(ops, k, false) && !Over(ops, k))
  }

  /** After any run a server takes part exactly when it went along with the last prepare of the placeholder and has
      answered every chunk since; the placeholder is aborted exactly when a chunk or a terminate found none to answer,
      and successful exactly when a terminate found one. */
  lemma {:induction false} TakesPartExactly(ops: seq<Op>, k: Key)
    ensures AsTold(Run(ops).chain, ops, k)
    decreases |ops|
  {
    hide AsTold, Next;
    if ops == [] {
      NothingTold(k);
    } else {
      var front := ops[..|ops| - 1];
      TakesPartExactly(front, k);
      NextTold(Run(front), ops, k);
    }
  }

  lemma NothingTold(k: Key)
    ensures AsTold(Start().chain, [], k)
  {
  }

  lemma NextTold(w: World, ops: seq<Op>, k: Key)
    requires ops != [] && AsTold(w.chain, ops[..|ops| - 1], k)
    ensures AsTold(Next(w, ops[|ops| - 1]).chain, ops, k)
  {
    var front, op := ops[..|ops| - 1], ops[|ops| - 1];
    NextChain(w, op);
    Told(ops, k);
    OverIs(front, k);
    OverIs(ops, k);
    hide Next, Begun, GivenUp, Ended, Over, TakesPart;
    if op.k != k { OtherChain(w.chain, op, k); }
  }

  lemma Told(ops: seq<Op>, k: Key)
    requires ops != []
    ensures var front, op := ops[..|ops| - 1], ops[|ops| - 1];
      var here, f, s := op.k == k && !Over(front, k), TakesPart(front, k, true), TakesPart(front, k, false);
      && (Begun(ops, k) <==> Begun(front, k) || (op.OpPrepare? && op.k == k))
      && (GivenUp(ops, k) <==>
            (GivenUp(front, k)
             || (here && Begun(front, k) && op.OpUpload? && !(f && op.w1.Some?) && !(s && op.w2.Some?))
             || (here && Begun(front, k) && op.OpTerminate? && !f && !s)))
      && (Ended(ops, k) <==> Ended(front, k) || (here && op.OpTerminate? && (f || s)))
      && TakesPart(ops, k, true) == (if !here || op.OpTerminate? then f else if op.OpPrepare? then op.faster else f && op.w1.Some?)
      && TakesPart(ops, k, false) == (if !here || op.OpTerminate? then s else if op.OpPrepare? then op.slower else s && op.w2.Some?)
  {
  }

  lemma NextChain(w: World, op: Op)
    ensures Next(w, op).chain == StepChain(w.chain, op).0
  {
  }

  lemma OtherChain(c: Chain, op: Op, k: Key)
    requires op.k != k
    ensures var c' := StepChain(c, op).0;
      && (k in c'.prepared <==> k in c.prepared) && (k in c.prepared ==> c'.prepared[k] == c.prepared[k])
      && (k in c'.aborted <==> k in c.aborted) && (k in c'.successful <==> k in c.successful)
  {
  }

  /** What a chunk is answered after any run: acknowledged exactly when the placeholder has been begun, is not over, and
      some server taking part answers; then with the smaller of two non-zero numbers of bytes, and otherwise with the
      larger. */
  lemma UploadAnswers(ops: seq<Op>, k: Key, chunk: Chunk, w1: Option<int>, w2: Option<int>)
    ensures var r := StepChain(Run(ops).chain, OpUpload(k, chunk, w1, w2)).1;
      var a := if TakesPart(ops, k, true) && w1.Some? then w1.value else 0;
      var b := if TakesPart(ops, k, false) && w2.Some? then w2.value else 0;
      if Over(ops, k) then r == Raised(AlreadyUploadedContent)
      else if !Begun(ops, k) then r == Raised(NotExistingPlaceholder)
      else if !(TakesPart(ops, k, true) && w1.Some?) && !(TakesPart(ops, k, false) && w2.Some?) then r == Raised(AllServersFailed)
      else r == Ok(if a != 0 && b != 0 && a < b then a else if a != 0 && b != 0 then b else if a < b then b else a)
  {
    TakesPartExactly(ops, k);
    hide Run, Over, Begun, GivenUp, Ended, TakesPart;
    assert Over(ops, k) <==> Run(ops).chain.Terminal(k) by { OverIs(ops, k); }
  }

  lemma OverIs(ops: seq<Op>, k: Key)
    ensures Over(ops, k) <==> GivenUp(ops, k) || Ended(ops, k)
  {
  }

  /** A prepare goes through exactly when the placeholder is not over and one of the servers goes along; a terminate when
      it has been begun, is not over, and some server takes part. */
  lemma OtherAnswers(ops: seq<Op>, k: Key, faster: bool, slower: bool)
    ensures StepChain(Run(ops).chain, OpPrepare(k, faster, slower)).1 ==
      if Over(ops, k) then Raised(AlreadyUploadedContent) else if faster || slower then Ok(0) else Raised(AllServersFailed)
    ensures StepChain(Run(ops).chain, OpTerminate(k, faster, slower)).1 ==
      if Over(ops, k) then Raised(AlreadyUploadedContent) else if !Begun(ops, k) then Raised(NotExistingPlaceholder)
      else if TakesPart(ops, k, true) || TakesPart(ops, k, false) then Ok(0) else Raised(AllServersFailed)
  {
    TakesPartExactly(ops, k);
    OverIs(ops, k);
    hide Run, Over, Begun, GivenUp, Ended, TakesPart;
  }

  // ----- over runs

  function RunFrom(w: World, ops: seq<Op>): World
    decreases |ops|
  {
    if ops == [] then w else RunFrom(Next(w, ops[0]), ops[1..])
  }

  /** An aborted or successful placeholder stays as it is, and every operation on it is refused. */
  lemma {:induction false} TerminalForGood(w: World, ops: seq<Op>, k: Key, op: Op)
    requires w.chain.Terminal(k)
    ensures SameAt(w, RunFrom(w, ops), k)
    ensures op.k == k ==> StepChain(RunFrom(w, ops).chain, op) == (RunFrom(w, ops).chain, Raised(AlreadyUploadedContent))
    decreases |ops|
  {
    if ops != [] {
      OthersStay(w, ops[0], k);
      hide Next;
      TerminalForGood(Next(w, ops[0]), ops[1..], k, op);
    }
  }

  ghost predicate NoPrepareOf(k: Key, ops: seq<Op>) {
    forall i :: 0 <= i < |ops| ==> !(ops[i].OpPrepare? && ops[i].k == k)
  }

  /** Between prepares a server that dropped out stays out. */
  lemma {:induction false} FlagsOnlyFall(w: World, ops: seq<Op>, k: Key)
    requires k in w.chain.prepared && NoPrepareOf(k, ops)
    ensures var w' := RunFrom(w, ops);
      && k in w'.chain.prepared
      && (w'.chain.prepared[k].faster ==> w.chain.prepared[k].faster)
      && (w'.chain.prepared[k].slower ==> w.chain.prepared[k].slower)
    decreases |ops|
  {
    if ops != [] {
      assert !(ops[0].OpPrepare? && ops[0].k == k);
      FlagStep(w, ops[0], k);
      hide Next;
      FlagsOnlyFall(Next(w, ops[0]), ops[1..], k);
    }
  }

  lemma FlagStep(w: World, op: Op, k: Key)
    requires k in w.chain.prepared && !(op.OpPrepare? && op.k == k)
    ensures var w' := Next(w, op);
      && k in w'.chain.prepared
      && (w'.chain.prepared[k].faster ==> w.chain.prepared[k].faster)
      && (w'.chain.prepared[k].slower ==> w.chain.prepared[k].slower)
  {
  }

  // ----- the chain object

  class FilerServerChain {
    var preparedPlaceholdersFor: map<Key, Flags>
    var abortedPlaceholders: set<Key>
    var successfulPlaceholders: set<Key>

    function Abs(): Chain
      reads this
    {
      Chain(preparedPlaceholdersFor, abortedPlaceholders, successfulPlaceholders)
    }

    constructor ()
      ensures Abs() == Start().chain
    {
      preparedPlaceholdersFor, abortedPlaceholders, successfulPlaceholders := map[], {}, {};
    }

    /** `faster` and `slower` say whether each server's own prepare goes through. */
    method PreparePlaceholder(k: Key, faster: bool, slower: bool) returns (r: Outcome<int, ChainError>)
      modifies this
      ensures (Abs(), r) == Prepare(old(Abs()), k, faster, slower)
    {
      if k in abortedPlaceholders || k in successfulPlaceholders { return Raised(AlreadyUploadedContent); }
      preparedPlaceholdersFor := preparedPlaceholdersFor[k := Flags(faster, slower)];
      if !faster && !slower { return Raised(AllServersFailed); }
      return Ok(0);
    }

    /** `answer1` and `answer2` are what the servers would answer: a number of bytes, or a failure. */
    method UploadChunkAt(k: Key, answer1: Option<int>, answer2: Option<int>) returns (r: Outcome<int, ChainError>)
      modifies this
      ensures (Abs(), r) == UploadChunk(old(Abs()), k, answer1, answer2)
    {
      if k in abortedPlaceholders || k in successfulPlaceholders { return Raised(AlreadyUploadedContent); }
      if k !in preparedPlaceholdersFor { return Raised(NotExistingPlaceholder); }
      var flags := preparedPlaceholdersFor[k];
      var written1 := if flags.faster then answer1 else None;
      var written2 := if flags.slower then answer2 else None;
      preparedPlaceholdersFor := preparedPlaceholdersFor[k := Flags(written1.Some?, written2.Some?)];
      if written1.None? && written2.None? {
        abortedPlaceholders := abortedPlaceholders + {k};
        return Raised(AllServersFailed);
      }
      return Ok(Written(written1, written2));
    }

    /** `faster` and `slower` say how the servers asked answer; it is ignored. */
    method UploadTerminate(k: Key, faster: bool, slower: bool) returns (r: Outcome<int, ChainError>)
      modifies this
      ensures (Abs(), r) == Terminate(old(Abs()), k)
    {
      if k in abortedPlaceholders || k in successfulPlaceholders { return Raised(AlreadyUploadedContent); }
      if k !in preparedPlaceholdersFor { return Raised(NotExistingPlaceholder); }
      var flags := preparedPlaceholdersFor[k];
      if !flags.faster && !flags.slower {
        abortedPlaceholders := abortedPlaceholders + {k};
        return Raised(AllServersFailed);
      }
      successfulPlaceholders := successfulPlaceholders + {k};
      return Ok(0);
    }
  }
}
