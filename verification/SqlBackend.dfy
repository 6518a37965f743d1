/** The database backend: slices point at rows, a running counter says how much has arrived, and a failed commit
    rolls the rows back. With every commit succeeding it behaves as the chunk assembler does. */
module Sql {
  import opened Common
  import opened Intervals
  import opened Slices
  import opened ByteUnion

  type Rows = map<int, bytes>

  datatype SqlError = OutOfRange | CommitFailed | BadSlices | NothingToHash | HashMismatch

  /** One unfinished upload: intervals, slices holding row numbers, the rows, the next row number, the counter. */
  datatype Upload = Upload(store: Store<int>, rows: Rows, next: int, counter: int)

  // ----- slices seen through the rows

  function Content(rows: Rows, id: int): Value { if id in rows then Raw(rows[id]) else Raw([]) }

  function Look(sl: seq<Slice<int>>, rows: Rows): seq<Slice<Value>> {
    if sl == [] then [] else [Slice(sl[0].key, Content(rows, sl[0].value))] + Look(sl[1..], rows)
  }

  function View(u: Upload): Store<Value> { Store(u.store.intervals, Look(u.store.slices, u.rows)) }

  ghost function Ids(sl: seq<Slice<int>>): set<int> {
    if sl == [] then {} else {sl[0].value} + Ids(sl[1..])
  }

  ghost predicate Distinct(sl: seq<Slice<int>>) {
    sl != [] ==> sl[0].value !in Ids(sl[1..]) && Distinct(sl[1..])
  }

  /** The row a slice points at. */
  function IdOf(sl: seq<Slice<int>>, k: Interval): int
    requires HasKey(sl, k)
  {
    if sl[0].key == k then sl[0].value else IdOf(sl[1..], k)
  }

  lemma {:induction false} LookFrame(sl: seq<Slice<int>>, rows: Rows, rows': Rows)
    requires forall id :: id in Ids(sl) ==> Content(rows, id) == Content(rows', id)
    ensures Look(sl, rows) == Look(sl, rows')
  {
    if sl != [] { LookFrame(sl[1..], rows, rows'); }
  }

  lemma LookCons(x: Slice<int>, rest: seq<Slice<int>>, rows: Rows)
    ensures Look([x] + rest, rows) == [Slice(x.key, Content(rows, x.value))] + Look(rest, rows)
    ensures Ids([x] + rest) == {x.value} + Ids(rest)
    ensures Distinct([x] + rest) <==> x.value !in Ids(rest) && Distinct(rest)
  {
    assert ([x] + rest)[1..] == rest;
  }

  lemma {:induction false} LookKeys(sl: seq<Slice<int>>, rows: Rows)
    ensures SameKeys(sl, Look(sl, rows))
  {
    if sl != [] {
      LookKeys(sl[1..], rows);
      assert Look(sl, rows)[1..] == Look(sl[1..], rows);
    }
  }

  lemma {:induction false} SameKeysTiled<V, W>(a: seq<Slice<V>>, b: seq<Slice<W>>)
    requires SameKeys(a, b) && Tiled(a)
    ensures Tiled(b) && Covered(a) == Covered(b)
  {
    if a != [] { SameKeysTiled(a[1..], b[1..]); }
  }

  lemma ViewConsistent(u: Upload)
    requires Consistent(u.store)
    ensures Consistent(View(u))
  {
    LookKeys(u.store.slices, u.rows);
    SameKeysTiled(u.store.slices, Look(u.store.slices, u.rows));
  }

  // ----- dropping rows

  lemma {:induction false} LookWithout(sl: seq<Slice<int>>, rows: Rows, k: Interval)
    requires Distinct(sl) && HasKey(sl, k)
    ensures IdOf(sl, k) in Ids(sl)
    ensures Ids(Without(sl, k)) == Ids(sl) - {IdOf(sl, k)} && Distinct(Without(sl, k))
    ensures Look(Without(sl, k), rows - {IdOf(sl, k)}) == Without(Look(sl, rows), k)
  {
    var x, tail := sl[0], sl[1..];
    assert Look(sl, rows)[1..] == Look(tail, rows);
    if x.key == k {
      LookFrame(tail, rows, rows - {x.value});
    } else {
      LookWithout(tail, rows, k);
      LookCons(x, Without(tail, k), rows - {IdOf(sl, k)});
    }
  }

  /** The rows left when every slice that is exactly one of the intervals is deleted. */
  function DropRows(sl: seq<Slice<int>>, inter: seq<Interval>, rows: Rows): Rows
    decreases |inter|
  {
    if inter == [] then rows
    else if HasKey(sl, inter[0]) then DropRows(Without(sl, inter[0]), inter[1..], rows - {IdOf(sl, inter[0])})
    else DropRows(sl, inter[1..], rows)
  }

  /** Each row belongs to one slice, and row numbers have not been used up. */
  ghost predicate RowsOk(sl: seq<Slice<int>>, rows: Rows, next: int) {
    Distinct(sl) && Ids(sl) <= rows.Keys && forall id :: id in rows ==> id < next
  }

  lemma {:induction false} LookDropWhole(st: Store<int>, rows: Rows, next: int, inter: seq<Interval>)
    requires RowsOk(st.slices, rows, next)
    ensures var c, left := DropWhole(st, inter), DropRows(st.slices, inter, rows);
      && Store(c.intervals, Look(c.slices, left)) == DropWhole(Store(st.intervals, Look(st.slices, rows)), inter)
      && RowsOk(c.slices, left, next) && left.Keys <= rows.Keys
      && left.Keys - Ids(c.slices) == rows.Keys - Ids(st.slices)
    decreases |inter|
  {
    hide Look, Distinct, Ids, IdOf, Without;
    if inter != [] {
      var k := inter[0];
      LookKeys(st.slices, rows);
      SameKeysWithout(st.slices, Look(st.slices, rows), k);
      if HasKey(st.slices, k) {
        LookWithout(st.slices, rows, k);
        LookDropWhole(DropOne(st, k), rows - {IdOf(st.slices, k)}, next, inter[1..]);
      } else {
        LookDropWhole(st, rows, next, inter[1..]);
      }
    }
  }

  // ----- adding rows

  function Numbers(next: int, n: nat): (ids: seq<int>)
    ensures |ids| == n
    decreases n
  {
    if n == 0 then [] else [next] + Numbers(next + 1, n - 1)
  }

  function AddRows(rows: Rows, next: int, values: seq<Value>): Rows
    decreases |values|
  {
    if values == [] then rows
    else AddRows(rows[next := if values[0].Raw? then values[0].data else []], next + 1, values[1..])
  }

  lemma {:induction false} LookWith(sl: seq<Slice<int>>, rows: Rows, k: Interval, id: int, data: bytes)
    requires Distinct(sl) && id !in Ids(sl)
    ensures Look(With(sl, k, id), rows[id := data]) == With(Look(sl, rows), k, Raw(data))
    ensures Distinct(With(sl, k, id)) && Ids(With(sl, k, id)) <= Ids(sl) + {id} && id in Ids(With(sl, k, id))
    ensures !HasKey(sl, k) ==> Ids(With(sl, k, id)) == Ids(sl) + {id}
  {
    if sl == [] || Before(k, sl[0].key) {
      LookFrame(sl, rows, rows[id := data]);
      LookCons(Slice(k, id), sl, rows[id := data]);
    } else {
      var x, tail := sl[0], sl[1..];
      assert Look(sl, rows)[1..] == Look(tail, rows);
      if x.key == k {
        LookFrame(tail, rows, rows[id := data]);
        LookCons(Slice(k, id), tail, rows[id := data]);
      } else {
        LookWith(tail, rows, k, id, data);
        LookCons(x, With(tail, k, id), rows[id := data]);
      }
    }
  }

  ghost predicate AllRaw(values: seq<Value>) { forall i :: 0 <= i < |values| ==> values[i].Raw? }

  lemma {:induction false} LookWithAll(sl: seq<Slice<int>>, rows: Rows, next: int, keys: seq<Interval>, values: seq<Value>)
    requires |keys| == |values| && AllRaw(values) && RowsOk(sl, rows, next)
    requires Tiled(sl) && Canonical(keys) && Points(keys) !! Covered(sl)
    ensures var sl', rows' := WithAll(sl, keys, Numbers(next, |keys|)), AddRows(rows, next, values);
      && Look(sl', rows') == WithAll(Look(sl, rows), keys, values)
      && RowsOk(sl', rows', next + |keys|)
      && rows'.Keys - Ids(sl') == rows.Keys - Ids(sl)
    decreases |keys|
  {
    if keys != [] {
      assert values[0].Raw? && AllRaw(values[1..]);
      hide Covered, Tiled, With, SliceAt, Look, Distinct, Ids, RowsOk, Points, AllRaw, Canonical;
      FirstKey(sl, keys, next);
      LookWithRow(sl, rows, next, keys[0], values[0].data);
      LookWithAll(With(sl, keys[0], next), rows[next := values[0].data], next + 1, keys[1..], values[1..]);
    }
  }

  lemma FirstKey(sl: seq<Slice<int>>, keys: seq<Interval>, id: int)
    requires keys != [] && Tiled(sl) && Canonical(keys) && Points(keys) !! Covered(sl)
    ensures !HasKey(sl, keys[0]) && Tiled(With(sl, keys[0], id))
    ensures Canonical(keys[1..]) && Points(keys[1..]) !! Covered(With(sl, keys[0], id))
  {
    hide Covered, Tiled, With, SliceAt;
    var k := keys[0];
    PointsFrom(keys[1..], k.end + 1);
    WithTiled(sl, k, id);
    AbsentKey(sl, k);
  }

  lemma LookWithRow(sl: seq<Slice<int>>, rows: Rows, next: int, k: Interval, data: bytes)
    requires RowsOk(sl, rows, next) && !HasKey(sl, k)
    ensures Look(With(sl, k, next), rows[next := data]) == With(Look(sl, rows), k, Raw(data))
    ensures RowsOk(With(sl, k, next), rows[next := data], next + 1)
    ensures rows[next := data].Keys - Ids(With(sl, k, next)) == rows.Keys - Ids(sl)
  {
    hide Look, With, Distinct, Ids, HasKey;
    assert next !in rows && next !in Ids(sl);
    LookWith(sl, rows, k, next, data);
  }

  lemma AbsentKey<V>(sl: seq<Slice<V>>, k: Interval)
    requires Tiled(sl) && k.start < k.end && Range(k.start, k.end) !! Covered(sl)
    ensures !HasKey(sl, k)
  {
    assert k.start in Range(k.start, k.end);
    if HasKey(sl, k) { WithoutTiled(sl, k); }
  }

  // ----- one chunk

  /** One chunk. When the commit fails the rows are rolled back, but the slices dropped before it stay dropped. */
  ghost function ChunkUp(u: Upload, total: int, call: Call, commits: bool): (Upload, Outcome<int, SqlError>)
    requires Consistent(u.store)
  {
    if call.offset > total then (u, Raised(OutOfRange))
    else
      var a, b := call.offset, Bound(call, total);
      var c := Cleared(u.store, a, b);
      if !commits then (u.(store := c), Raised(CommitFailed))
      else
        ClearedConsistent(u.store, a, b);
        var keys := NewKeys(u.store, a, b);
        var rows := DropRows(u.store.slices, Clip(u.store.intervals, a, b), u.rows);
        (Upload(Store(Merge(c.intervals, a, b), WithAll(c.slices, keys, Numbers(u.next, |keys|))),
                AddRows(rows, u.next, NewValues(true, call, keys)), u.next + |keys|, u.counter + Growth(u.store, a, b)),
         Ok(Growth(u.store, a, b)))
  }

  ghost predicate UploadOk(u: Upload) {
    Consistent(u.store) && RowsOk(u.store.slices, u.rows, u.next)
  }

  /** The rows no slice points at: no clean-up by slices reaches them. */
  ghost function Orphans(u: Upload): set<int> { u.rows.Keys - Ids(u.store.slices) }

  lemma RawValues(call: Call, keys: seq<Interval>)
    requires Within(keys, call.offset, call.offset + |call.data|)
    ensures AllRaw(NewValues(true, call, keys))
  {
  }

  /** What the rows hold after a committed chunk is what the chunk assembler's slices hold. */
  lemma CommittedView(u: Upload, total: int, call: Call)
    requires UploadOk(u) && call.offset <= total && Consistent(View(u))
    ensures var u' := ChunkUp(u, total, call, true).0;
      && RowsOk(u'.store.slices, u'.rows, u'.next) && View(u') == After(View(u), total, true, call)
      && Orphans(u') == Orphans(u)
  {
    var a, b := call.offset, Bound(call, total);
    var inter, rows := Clip(u.store.intervals, a, b), DropRows(u.store.slices, Clip(u.store.intervals, a, b), u.rows);
    var c, keys := Cleared(u.store, a, b), NewKeys(u.store, a, b);
    hide Points, Separated, NoEmpty, Tiled, Covered, Clip, Holes, DropWhole, DropGrowth, DropRows, Merge, Look, Filled,
      Distinct, Ids, WithAll, AddRows, Numbers, NewValues, RowsOk, AllRaw;
    ClearedConsistent(u.store, a, b);
    LookDropWhole(u.store, u.rows, u.next, inter);
    AfterUnfolds(View(u), total, true, call);
    RawValues(call, keys);
    LookWithAll(c.slices, rows, u.next, keys, NewValues(true, call, keys));
  }

  /** A committed chunk returns what the chunk assembler returns, and counts exactly the bytes gained. */
  lemma CommittedGrowth(u: Upload, total: int, call: Call)
    requires UploadOk(u) && call.offset <= total
    ensures var (u', r) := ChunkUp(u, total, call, true);
      && Consistent(u'.store) && r.Ok? && Returned(View(u), total, call) == Ok(r.value)
      && u'.counter - u.counter == Filled(u'.store.intervals) - Filled(u.store.intervals)
  {
    var a, b := call.offset, Bound(call, total);
    var keys := NewKeys(u.store, a, b);
    hide Points, Separated, NoEmpty, Tiled, Covered, Clip, Holes, DropWhole, DropGrowth, DropRows, Merge, Look, Filled,
      WithAll, AddRows, Numbers, NewValues, SameKeys, RowsOk;
    LookKeys(u.store.slices, u.rows);
    SameBooksDrop(u.store, View(u), Clip(u.store.intervals, a, b));
    UploadConsistent(u.store, a, b, Numbers(u.next, |keys|));
    UploadGrowth(u.store, a, b, Numbers(u.next, |keys|));
  }

  /** A committed chunk does to the rows what the chunk assembler does to its slices, and counts the growth. */
  lemma CommittedStep(u: Upload, total: int, call: Call)
    requires UploadOk(u)
    ensures Consistent(View(u))
    ensures var (u', r) := ChunkUp(u, total, call, true);
      && UploadOk(u') && View(u') == After(View(u), total, true, call)
      && Orphans(u') == Orphans(u)
      && (match Returned(View(u), total, call) case Ok(n) => r == Ok(n) case Raised(_) => r == Raised(OutOfRange))
      && u'.counter - u.counter == Filled(u'.store.intervals) - Filled(u.store.intervals)
  {
    ViewConsistent(u);
    if call.offset <= total {
      hide Consistent, RowsOk, ChunkUp, After, View, Ids, Filled;
      CommittedView(u, total, call);
      CommittedGrowth(u, total, call);
    }
  }

  // ----- runs

  datatype Step = Step(call: Call, commits: bool)

  ghost function Start(): (u: Upload)
    ensures UploadOk(u)
  {
    Upload(Store([], []), map[], 0, 0)
  }

  ghost function SqlRun(total: int, steps: seq<Step>): (u: Upload)
    ensures UploadOk(u)
  {
    if steps == [] then Start()
    else
      var before, last := SqlRun(total, steps[..|steps| - 1]), steps[|steps| - 1];
      StepOk(before, total, last);
      ChunkUp(before, total, last.call, last.commits).0
  }

  lemma StepOk(u: Upload, total: int, s: Step)
    requires UploadOk(u)
    ensures UploadOk(ChunkUp(u, total, s.call, s.commits).0)
  {
    if s.commits {
      CommittedStep(u, total, s.call);
    } else {
      FailedStep(u, total, s.call);
    }
  }

  /** A failed commit leaves the counter, and what is covered shrinks by the slices dropped. */
  lemma FailedStep(u: Upload, total: int, call: Call)
    requires UploadOk(u)
    ensures var u' := ChunkUp(u, total, call, false).0;
      && UploadOk(u') && u'.counter == u.counter
      && Filled(u'.store.intervals) == Filled(u.store.intervals) +
           if call.offset > total then 0 else DropGrowth(u.store.slices, Clip(u.store.intervals, call.offset, Bound(call, total)))
  {
    if call.offset <= total {
      hide Points, Separated, NoEmpty, Tiled, Covered, Clip, Holes, DropWhole, DropGrowth, DropRows, Merge, Look, Filled,
        Distinct, WithAll, AddRows, NewValues;
      var a, b := call.offset, Bound(call, total);
      ClearedConsistent(u.store, a, b);
      LookDropWhole(u.store, u.rows, u.next, Clip(u.store.intervals, a, b));
      FilledIsCardinality(u.store.intervals);
      FilledIsCardinality(Cleared(u.store, a, b).intervals);
    }
  }

  function Committed(calls: seq<Call>): (s: seq<Step>)
    ensures |s| == |calls| && forall i :: 0 <= i < |s| ==> s[i] == Step(calls[i], true)
  {
    seq(|calls|, i requires 0 <= i < |calls| => Step(calls[i], true))
  }

  /** When every commit succeeds the rows hold what the chunk assembler holds, no row is left over, and the counter is
      the number of bytes covered. */
  lemma {:induction false} RunRefines(total: int, calls: seq<Call>)
    ensures var u := SqlRun(total, Committed(calls));
      View(u) == Run(total, true, calls) && u.counter == Filled(u.store.intervals) && Orphans(u) == {}
  {
    hide ChunkUp, After, View, Filled, Orphans, UploadOk, Consistent;
    if calls == [] {
      NothingRun(total);
    } else {
      var front := calls[..|calls| - 1];
      RunRefines(total, front);
      assert Committed(calls)[..|calls| - 1] == Committed(front);
      CommittedStep(SqlRun(total, Committed(front)), total, calls[|calls| - 1]);
    }
  }

  lemma NothingRun(total: int)
    ensures var u := SqlRun(total, Committed([])); View(u) == Run(total, true, []) && u.counter == 0
    ensures Filled(SqlRun(total, Committed([])).store.intervals) == 0 && Orphans(SqlRun(total, Committed([]))) == {}
  {
  }

  // ----- failed commits

  ghost predicate NoneWhole(sl: seq<Slice<int>>, inter: seq<Interval>) {
    forall i :: 0 <= i < |inter| ==> !HasKey(sl, inter[i])
  }

  lemma NoneWholeCons(sl: seq<Slice<int>>, k: Interval, rest: seq<Interval>)
    ensures NoneWhole(sl, [k] + rest) <==> !HasKey(sl, k) && NoneWhole(sl, rest)
  {
    var inter := [k] + rest;
    assert inter[0] == k;
    assert forall i :: 0 < i < |inter| ==> inter[i] == rest[i - 1];
    assert forall i :: 0 <= i < |rest| ==> rest[i] == inter[i + 1];
  }

  lemma {:induction false} DropLoses(st: Store<int>, inter: seq<Interval>)
    requires Consistent(st)
    ensures DropGrowth(st.slices, inter) <= 0
    ensures DropGrowth(st.slices, inter) == 0 <==> NoneWhole(st.slices, inter)
    decreases |inter|
  {
    if inter != [] {
      var k, rest := inter[0], inter[1..];
      hide Consistent, HasKey, Without, Cut, DropOne, NoneWhole;
      NoneWholeCons(st.slices, k, rest);
      assert inter == [k] + rest;
      if HasKey(st.slices, k) {
        DropOneConsistent(st, k);
        DropLoses(DropOne(st, k), rest);
      } else {
        DropLoses(st, rest);
      }
    }
  }

  /** A failed commit does harm when the chunk covered a stored slice as a whole. */
  ghost predicate Harmless(u: Upload, total: int, s: Step) {
    s.commits || s.call.offset > total
    || NoneWhole(u.store.slices, Clip(u.store.intervals, s.call.offset, Bound(s.call, total)))
  }

  ghost predicate AllHarmless(total: int, steps: seq<Step>) {
    steps == [] ||
    (AllHarmless(total, steps[..|steps| - 1]) && Harmless(SqlRun(total, steps[..|steps| - 1]), total, steps[|steps| - 1]))
  }

  /** The counter never falls below what is covered, and equals it exactly when no failed commit dropped a slice. */
  lemma {:induction false} CounterExact(total: int, steps: seq<Step>)
    ensures var u := SqlRun(total, steps);
      u.counter >= Filled(u.store.intervals) && (u.counter == Filled(u.store.intervals) <==> AllHarmless(total, steps))
  {
    if steps != [] {
      var front, last := steps[..|steps| - 1], steps[|steps| - 1];
      CounterExact(total, front);
      var before := SqlRun(total, front);
      hide Clip, DropGrowth, NoneWhole, Filled;
      if last.commits {
        CommittedStep(before, total, last.call);
      } else if last.call.offset <= total {
        FailedStep(before, total, last.call);
        DropLoses(before.store, Clip(before.store.intervals, last.call.offset, Bound(last.call, total)));
      }
    }
  }

  lemma {:induction false} DropIds(st: Store<int>, inter: seq<Interval>)
    requires Distinct(st.slices)
    ensures Ids(DropWhole(st, inter).slices) <= Ids(st.slices)
    ensures Ids(DropWhole(st, inter).slices) == Ids(st.slices) <==> NoneWhole(st.slices, inter)
    decreases |inter|
  {
    if inter != [] {
      var k, rest := inter[0], inter[1..];
      hide HasKey, Without, Cut, NoneWhole, Distinct, Ids, IdOf;
      NoneWholeCons(st.slices, k, rest);
      assert inter == [k] + rest;
      if HasKey(st.slices, k) {
        LookWithout(st.slices, map[], k);
        DropIds(DropOne(st, k), rest);
      } else {
        DropIds(st, rest);
      }
    }
  }

  lemma FailedOrphans(u: Upload, total: int, call: Call)
    requires UploadOk(u)
    ensures var u' := ChunkUp(u, total, call, false).0;
      Orphans(u) <= Orphans(u') && (Orphans(u') == Orphans(u) <==> Harmless(u, total, Step(call, false)))
  {
    if call.offset <= total {
      hide Consistent, Clip, DropWhole, NoneWhole, Distinct, Ids;
      DropIds(u.store, Clip(u.store.intervals, call.offset, Bound(call, total)));
    }
  }

  /** Rows are left over, for good, exactly when some failed commit dropped a slice. */
  lemma {:induction false} OrphansExactly(total: int, steps: seq<Step>)
    ensures Orphans(SqlRun(total, steps)) == {} <==> AllHarmless(total, steps)
    decreases |steps|
  {
    if steps != [] {
      hide ChunkUp, Orphans, UploadOk, NoneWhole;
      var front, last := steps[..|steps| - 1], steps[|steps| - 1];
      OrphansExactly(total, front);
      if last.commits {
        CommittedStep(SqlRun(total, front), total, last.call);
      } else {
        FailedOrphans(SqlRun(total, front), total, last.call);
      }
    } else {
      assert Orphans(Start()) == {};
    }
  }

  /** Sending a chunk again with a failing commit: the counter says complete, and nothing is there. */
  lemma FailedCommitFoolsCounter(data: bytes)
    requires data != []
    ensures var call := Call(0, data, None);
      var u := SqlRun(|data|, [Step(call, true), Step(call, false)]);
      u.counter == |data| && Filled(u.store.intervals) == 0
  {
    var call, n := Call(0, data, None), |data|;
    var a, b := Step(call, true), Step(call, false);
    assert [a, b][..1] == [a] && [a][..0] == [];
    hide ChunkUp;
    assert SqlRun(n, []) == Start();
    var one := SqlRun(n, [a]);
    assert one == ChunkUp(Start(), n, call, true).0;
    assert SqlRun(n, [a, b]) == ChunkUp(one, n, call, false).0;
    FirstChunk(n, data);
    LostAgain(one, data);
  }

  lemma FirstChunk(total: int, data: bytes)
    requires 0 < |data| <= total
    ensures var u := ChunkUp(Start(), total, Call(0, data, None), true).0;
      u.store == Store([Interval(0, |data|)], [Slice(Interval(0, |data|), 0)]) && u.counter == |data| && u.next == 1
  {
    var n := |data|;
    var inter, c, keys := ChunkUnfolds(Start(), total, Call(0, data, None), true);
    hide ChunkUp, UploadOk, Consistent, DropRows, AddRows, NewValues, Merge, Filled, Numbers, WithAll;
    assert inter == Clip([], 0, n) == [] && c == DropWhole(Start().store, []) == Start().store;
    assert keys == Holes([], 0, n) == [Interval(0, n)];
    assert DropGrowth(Start().store.slices, []) == 0;
    MergeFront(0, n);
    FirstKeys(n);
    OnlyInterval(n);
  }

  lemma FirstKeys(n: nat)
    ensures Numbers(0, 1) == [0] && WithAll([], [Interval(0, n)], [0]) == [Slice(Interval(0, n), 0)]
  {
    assert Numbers(0, 1) == [0] + Numbers(1, 0);
    assert With([], Interval(0, n), 0) == [Slice(Interval(0, n), 0)];
    assert WithAll([], [Interval(0, n)], [0]) == WithAll(With([], Interval(0, n), 0), [], []);
  }

  /** A stretch from 0, if any, grows by one that begins where it ends. */
  lemma MergeFront(k: nat, n: nat)
    requires k <= n
    ensures Merge(if k == 0 then [] else [Interval(0, k)], k, n) == [Interval(0, n)]
  {
  }

  lemma LostAgain(u: Upload, data: bytes)
    requires data != [] && Consistent(u.store)
    requires u.store == Store([Interval(0, |data|)], [Slice(Interval(0, |data|), 0)])
    ensures var u' := ChunkUp(u, |data|, Call(0, data, None), false).0; u'.counter == u.counter && Filled(u'.store.intervals) == 0
  {
    var n := |data|;
    var all := Interval(0, n);
    assert [all][1..] == [];
    assert Clip([all], 0, n) == [all];
    assert HasKey(u.store.slices, all);
    assert Cut([all], 0, n) == [];
    DropNothing(DropOne(u.store, all));
    assert Cleared(u.store, 0, n) == DropWhole(DropOne(u.store, all), [all][1..]) == DropOne(u.store, all);
  }

  // ----- moving the finished file

  function JoinRows(sl: seq<Slice<int>>, rows: Rows, cur: int): Outcome<bytes, SqlError> {
    if sl == [] then Ok([])
    else if sl[0].key.start != cur then Raised(BadSlices)
    else
      var content := if sl[0].value in rows then rows[sl[0].value] else [];
      var rest := JoinRows(sl[1..], rows, cur + |content|);
      if rest.Raised? then rest else Ok(content + rest.value)
  }

  lemma {:induction false} JoinIsPieces(sl: seq<Slice<int>>, rows: Rows, cur: int)
    ensures var p := Pieces(Look(sl, rows), cur);
      JoinRows(sl, rows, cur) == if p.Ok? then Ok(Joined(p.value)) else Raised(BadSlices)
  {
    if sl != [] {
      var first := Content(rows, sl[0].value);
      JoinIsPieces(sl[1..], rows, cur + Size(first));
      assert Look(sl, rows)[1..] == Look(sl[1..], rows);
      var p := Pieces(Look(sl, rows), cur);
      if p.Ok? { assert p.value[1..] == Pieces(Look(sl[1..], rows), cur + Size(first)).value; }
    }
  }

  /** Only this many bytes from the front go into the hash. */
  const HASHED := 0x1000000

  /** What a terminate puts into the content table: nothing when the counter differs from the expected size. */
  function Moved(u: Upload, total: int, hash: int, digest: bytes -> int, commits: bool): Outcome<Option<bytes>, SqlError> {
    if u.counter != total then Ok(None)
    else
      var full := JoinRows(u.store.slices, u.rows, 0);
      if full.Raised? then Raised(full.error)
      else if full.value == [] then Raised(NothingToHash)
      else if digest(Window(full.value, 0, HASHED)) != hash then Raised(HashMismatch)
      else if !commits then Raised(CommitFailed)
      else Ok(Some(full.value))
  }

  // ----- what is stored, whichever commits fail

  /** All bytes held are bytes of the file, at their place. */
  ghost predicate HoldsFile(st: Store<Value>, file: bytes) {
    && Consistent(st) && Good(st.slices, true)
    && forall q :: q in Points(st.intervals) ==> 0 <= q < |file| && ByteAt(st.slices, q) == Some(file[q])
  }

  ghost predicate StepsAgree(file: bytes, steps: seq<Step>) {
    forall i :: 0 <= i < |steps| ==> AgreesWith(file, steps[i].call)
  }

  lemma AfterHolds(st: Store<Value>, file: bytes, call: Call)
    requires HoldsFile(st, file) && AgreesWith(file, call)
    ensures HoldsFile(After(st, |file|, true, call), file)
  {
    hide After, ByteAt, Good, Points, Separated, Tiled, Covered;
    var after := After(st, |file|, true, call);
    AfterGood(st, |file|, true, call);
    AfterConsistent(st, |file|, true, call);
    forall q | q in Points(after.intervals) ensures 0 <= q < |file| && ByteAt(after.slices, q) == Some(file[q]) {
      BytesCovered(after, q);
      BytesCovered(st, q);
      ByteAfter(st, |file|, call, q);
    }
  }

  /** Dropping slices leaves the bytes of the others. */
  lemma DropHolds(st: Store<Value>, file: bytes, inter: seq<Interval>, a: int, b: int)
    requires HoldsFile(st, file) && Within(inter, a, b)
    ensures HoldsFile(DropWhole(st, inter), file)
  {
    hide DropWhole, Kept, SliceAt, Good, Points, Separated, Tiled, Covered, Within;
    var left := DropWhole(st, inter);
    DropWholeConsistent(st, inter, a, b);
    forall x | x in left.slices ensures GoodSlice(x, true) {
      MembersAt(left.slices, x);
      DropWholeKeeps(st, inter, x.key.start);
      KeptIs(st.slices, inter, x.key.start);
      SliceAtCovered(st.slices, x.key.start);
      GoodMember(st.slices, true, x);
    }
    GoodAll(left.slices, true);
    forall q | q in Points(left.intervals) ensures 0 <= q < |file| && ByteAt(left.slices, q) == Some(file[q]) {
      SliceAtCovered(left.slices, q);
      DropWholeKeeps(st, inter, q);
      KeptIs(st.slices, inter, q);
    }
  }

  lemma {:induction false} DropRowsWithin(sl: seq<Slice<int>>, inter: seq<Interval>, rows: Rows)
    ensures forall id :: id in DropRows(sl, inter, rows) ==> id in rows && rows[id] == DropRows(sl, inter, rows)[id]
    decreases |inter|
  {
    if inter != [] {
      if HasKey(sl, inter[0]) {
        DropRowsWithin(Without(sl, inter[0]), inter[1..], rows - {IdOf(sl, inter[0])});
      } else {
        DropRowsWithin(sl, inter[1..], rows);
      }
    }
  }

  /** After a failed commit the rows hold what they held for the slices that are left. */
  lemma FailedView(u: Upload, total: int, call: Call)
    requires UploadOk(u) && call.offset <= total
    ensures View(ChunkUp(u, total, call, false).0) == DropWhole(View(u), Clip(u.store.intervals, call.offset, Bound(call, total)))
  {
    var inter := Clip(u.store.intervals, call.offset, Bound(call, total));
    var c, left := DropWhole(u.store, inter), DropRows(u.store.slices, inter, u.rows);
    hide DropWhole, DropRows, Look, Clip, Distinct, Consistent;
    LookDropWhole(u.store, u.rows, u.next, inter);
    DropRowsWithin(u.store.slices, inter, u.rows);
    LookFrame(c.slices, u.rows, left);
  }

  lemma StepHolds(u: Upload, file: bytes, s: Step)
    requires UploadOk(u) && HoldsFile(View(u), file) && AgreesWith(file, s.call)
    ensures HoldsFile(View(ChunkUp(u, |file|, s.call, s.commits).0), file)
  {
    var a, b := s.call.offset, Bound(s.call, |file|);
    if s.commits {
      hide ChunkUp, After, HoldsFile, UploadOk;
      CommittedStep(u, |file|, s.call);
      AfterHolds(View(u), file, s.call);
    } else if a <= |file| {
      hide HoldsFile, Consistent, RowsOk, Clip, DropWhole, Within;
      FailedView(u, |file|, s.call);
      ClipWithin(u.store.intervals, a, b);
      DropHolds(View(u), file, Clip(u.store.intervals, a, b), a, b);
    }
  }

  /** Whichever commits fail, chunks of one file leave only bytes of that file. */
  lemma {:induction false} RunHolds(file: bytes, steps: seq<Step>)
    requires StepsAgree(file, steps)
    ensures HoldsFile(View(SqlRun(|file|, steps)), file)
    decreases |steps|
  {
    if steps != [] {
      hide ChunkUp, HoldsFile, View, UploadOk;
      var front := steps[..|steps| - 1];
      RunHolds(file, front);
      StepHolds(SqlRun(|file|, front), file, steps[|steps| - 1]);
    }
  }

  /** What holds bytes of the file only joins, if at all, to a front of it as long as what is covered. */
  lemma HeldJoins(st: Store<Value>, file: bytes)
    requires HoldsFile(st, file)
    ensures var n := Filled(st.intervals);
      && n >= 0
      && (Pieces(st.slices, 0).Ok? <==> Points(st.intervals) == Range(0, n))
      && (Pieces(st.slices, 0).Ok? ==> n <= |file| && Joined(Pieces(st.slices, 0).value) == file[..n])
  {
    hide ByteAt, Good, Points, Covered, Separated, Tiled, Filled, Pieces, Joined;
    FilledIsCardinality(st.intervals);
    PiecesCover(st.slices, true, 0);
    var n := Filled(st.intervals);
    if Pieces(st.slices, 0).Ok? {
      PiecesBytes(st.slices, 0);
      var joined := Joined(Pieces(st.slices, 0).value);
      if n > 0 { assert n - 1 in Range(0, n); }
      forall q | 0 <= q < n ensures joined[q] == file[q] { assert q in Range(0, n); }
      assert joined == file[..n];
    }
  }

  /** With chunks of one file, whichever commits fail: a terminate stores something exactly when the counter is full, what
      is covered is a front of the file and not empty, its first 16 MiB have the expected hash, and the terminate
      commits. It then stores that front; and this is the whole file exactly when no failed commit dropped a slice. */
  lemma StoresFile(file: bytes, steps: seq<Step>, hash: int, digest: bytes -> int, commits: bool)
    requires StepsAgree(file, steps)
    ensures var u := SqlRun(|file|, steps);
      var r, n := Moved(u, |file|, hash, digest, commits), Filled(u.store.intervals);
      && (r == Ok(None) <==> u.counter != |file|)
      && (r.Ok? && r.value.Some? <==>
            && u.counter == |file| && 0 < n <= |file| && Points(u.store.intervals) == Range(0, n)
            && digest(Window(file[..n], 0, HASHED)) == hash && commits)
      && (r.Ok? && r.value.Some? ==>
            n <= |file| && r.value.value == file[..n] && (r.value.value == file <==> AllHarmless(|file|, steps)))
  {
    var u := SqlRun(|file|, steps);
    RunHolds(file, steps);
    CounterExact(|file|, steps);
    HeldJoins(View(u), file);
    JoinIsPieces(u.store.slices, u.rows, 0);
    hide SqlRun, Pieces, Joined, JoinRows, Filled, Look, Points, HoldsFile, AllHarmless;
  }

  /** Every answer of a terminate, for chunks of one file: nothing stored while the counter is short or beyond, then a gap, an
      empty upload, a wrong hash and a failed commit refused in this order, and otherwise the front of the file. */
  lemma TerminateAnswers(file: bytes, steps: seq<Step>, hash: int, digest: bytes -> int, commits: bool)
    requires StepsAgree(file, steps)
    ensures var u := SqlRun(|file|, steps);
      var n := Filled(u.store.intervals);
      Moved(u, |file|, hash, digest, commits) ==
        if u.counter != |file| then Ok(None)
        else if Points(u.store.intervals) != Range(0, n) then Raised(BadSlices)
        else if n <= 0 || n > |file| then Raised(NothingToHash)
        else if digest(file[..if n < 16777216 then n else 16777216]) != hash then Raised(HashMismatch)
        else if !commits then Raised(CommitFailed)
        else Ok(Some(file[..n]))
  {
    var u := SqlRun(|file|, steps);
    RunHolds(file, steps);
    HeldJoins(View(u), file);
    JoinIsPieces(u.store.slices, u.rows, 0);
    hide SqlRun, Pieces, Joined, JoinRows, Filled, Look, Points, Range, HoldsFile;
    var n := Filled(u.store.intervals);
    if 0 < n <= |file| { assert Window(file[..n], 0, HASHED) == file[..if n < HASHED then n else HASHED]; }
  }

  /** While no failed commit has dropped a slice, a terminate stores the file exactly when every byte has come, the file
      is not empty, its first 16 MiB have the expected hash, and the terminate commits; incomplete is dropped. */
  lemma StoresWhole(file: bytes, steps: seq<Step>, hash: int, digest: bytes -> int, commits: bool)
    requires StepsAgree(file, steps) && AllHarmless(|file|, steps)
    ensures var u := SqlRun(|file|, steps);
      var r := Moved(u, |file|, hash, digest, commits);
      && (r.Ok? && r.value.Some? ==> r.value.value == file)
      && (r.Ok? && r.value.Some? <==>
            Filled(u.store.intervals) == |file| && file != [] && digest(Window(file, 0, HASHED)) == hash && commits)
      && (r == Ok(None) <==> Filled(u.store.intervals) != |file|)
  {
    hide SqlRun, Filled, Points, Moved, AllHarmless, HoldsFile, Look, StepsAgree, Consistent, RowsOk;
    var u := SqlRun(|file|, steps);
    StoresFile(file, steps, hash, digest, commits);
    CounterExact(|file|, steps);
    RunHolds(file, steps);
    if Filled(u.store.intervals) == |file| {
      HoldsAll(View(u), file);
      assert file[..|file|] == file;
    }
  }

  lemma HoldsAll(st: Store<Value>, file: bytes)
    requires HoldsFile(st, file) && Filled(st.intervals) == |file|
    ensures Points(st.intervals) == Range(0, |file|)
  {
    hide Points, Filled, ByteAt;
    FilledIsCardinality(st.intervals);
    FullRange(Points(st.intervals), |file|);
  }

  /** Where every commit succeeds, none has failed after dropping a slice. */
  lemma {:induction false} CommittedHarmless(total: int, calls: seq<Call>)
    ensures AllHarmless(total, Committed(calls))
    decreases |calls|
  {
    if calls != [] {
      var front := calls[..|calls| - 1];
      CommittedHarmless(total, front);
      assert Committed(calls)[..|calls| - 1] == Committed(front);
    }
  }

  /** With chunks of one file, all committed, a terminate stores exactly that file, and does so exactly when every byte
      has come, the file is not empty, its first 16 MiB have the expected hash, and the terminate itself commits. */
  lemma StoresCommitted(file: bytes, calls: seq<Call>, hash: int, digest: bytes -> int, commits: bool)
    requires AllAgree(file, calls)
    ensures var r := Moved(SqlRun(|file|, Committed(calls)), |file|, hash, digest, commits);
      && (r.Ok? && r.value.Some? ==> r.value.value == file)
      && (r.Ok? && r.value.Some? <==>
            Complete(Run(|file|, true, calls), |file|) && file != [] && digest(Window(file, 0, HASHED)) == hash && commits)
      && (r == Ok(None) <==> !Complete(Run(|file|, true, calls), |file|))
  {
    RunRefines(|file|, calls);
    CommittedHarmless(|file|, calls);
    hide SqlRun, Run, Filled, Moved, AllHarmless, AgreesWith, Look, Ids;
    StoresWhole(file, Committed(calls), hash, digest, commits);
  }

  lemma SecondChunk(u: Upload, k: nat, data: bytes)
    requires UploadOk(u) && k > 0 && data != [] && u.next == 1
    requires u.store == Store([Interval(0, k)], [Slice(Interval(0, k), 0)])
    ensures ChunkUp(u, k + |data|, Call(k, data, None), true).0.store ==
      Store([Interval(0, k + |data|)], [Slice(Interval(0, k), 0), Slice(Interval(k, k + |data|), 1)])
  {
    hide ChunkUp, UploadOk, DropRows, AddRows, NewValues, Merge, Filled, Numbers, WithAll, DropGrowth, DropWhole, Clip,
      Holes, Consistent, Separated, Within;
    var inter, c, keys := ChunkUnfolds(u, k + |data|, Call(k, data, None), true);
    SecondStore(u.store, k, k + |data|);
  }

  lemma SecondStore(st: Store<int>, k: nat, n: nat)
    requires 0 < k < n && st == Store([Interval(0, k)], [Slice(Interval(0, k), 0)])
    ensures var c := DropWhole(st, Clip(st.intervals, k, n));
      var keys := Holes(c.intervals, k, n);
      Store(Merge(c.intervals, k, n), WithAll(c.slices, keys, Numbers(1, |keys|)))
        == Store([Interval(0, n)], [Slice(Interval(0, k), 0), Slice(Interval(k, n), 1)])
  {
    hide Merge, Numbers, WithAll, DropWhole, Clip, Holes;
    NothingWhole(st, k, n);
    HoleBehind(k, n);
    MergeFront(k, n);
    SecondKeys(k, n);
  }

  lemma NothingWhole(st: Store<int>, k: nat, n: nat)
    requires 0 < k <= n && st == Store([Interval(0, k)], [Slice(Interval(0, k), 0)])
    ensures DropWhole(st, Clip(st.intervals, k, n)) == st
  {
    var x := Interval(0, k);
    assert [x][1..] == [] && st.slices[1..] == [];
    assert Clip([x], k, n) == Clipped(x, k, n) + Clip([x][1..], k, n) == [Interval(k, k)];
    assert !HasKey(st.slices, Interval(k, k));
    assert [Interval(k, k)][1..] == [];
    assert DropWhole(st, []) == st;
    assert DropWhole(st, [Interval(k, k)]) == DropWhole(st, [Interval(k, k)][1..]);
  }

  lemma HoleBehind(k: nat, n: nat)
    requires 0 < k < n
    ensures Holes([Interval(0, k)], k, n) == [Interval(k, n)]
  {
    assert [Interval(0, k)][1..] == [];
  }

  lemma SecondKeys(k: nat, n: nat)
    requires 0 < k <= n
    ensures var x, y := Interval(0, k), Interval(k, n);
      Numbers(1, 1) == [1] && WithAll([Slice(x, 0)], [y], [1]) == [Slice(x, 0), Slice(y, 1)]
  {
    var x, y := Interval(0, k), Interval(k, n);
    assert Numbers(1, 1) == [1] + Numbers(2, 0);
    assert [Slice(x, 0)][1..] == [] && With([], y, 1) == [Slice(y, 1)];
    assert With([Slice(x, 0)], y, 1) == [Slice(x, 0)] + With([Slice(x, 0)][1..], y, 1);
    assert WithAll([Slice(x, 0)], [y], [1]) == WithAll(With([Slice(x, 0)], y, 1), [y][1..], [1][1..]);
  }

  lemma SecondLost(u: Upload, k: nat, data: bytes)
    requires Consistent(u.store) && k > 0 && data != []
    requires u.store == Store([Interval(0, k + |data|)], [Slice(Interval(0, k), 0), Slice(Interval(k, k + |data|), 1)])
    ensures ChunkUp(u, k + |data|, Call(k, data, None), false).0.store == Store([Interval(0, k)], [Slice(Interval(0, k), 0)])
  {
    var n, x, y := k + |data|, Interval(0, k), Interval(k, k + |data|);
    assert [Interval(0, n)][1..] == [];
    assert Clip([Interval(0, n)], k, n) == [y];
    assert u.store.slices[1..] == [Slice(y, 1)] && HasKey(u.store.slices, y);
    assert Without(u.store.slices, y) == [Slice(x, 0)] + Without([Slice(y, 1)], y) == [Slice(x, 0)];
    assert Cut([Interval(0, n)], k, n) == [x];
    DropNothing(DropOne(u.store, y));
    assert Cleared(u.store, k, n) == DropWhole(DropOne(u.store, y), [y][1..]) == DropOne(u.store, y);
  }

  function Halves(a: bytes, b: bytes): seq<Step> {
    [Step(Call(0, a, None), true)] + [Step(Call(|a|, b, None), true)]
  }

  lemma TwoHalves(a: bytes, b: bytes)
    requires a != [] && b != []
    ensures var u, n := SqlRun(|a| + |b|, Halves(a, b)), |a| + |b|;
      u.store == Store([Interval(0, n)], [Slice(Interval(0, |a|), 0), Slice(Interval(|a|, n), 1)]) && u.counter == n
  {
    hide SqlRun, ChunkUp;
    var n, first, second := |a| + |b|, Step(Call(0, a, None), true), Step(Call(|a|, b, None), true);
    RunSnoc(n, [], first);
    assert [] + [first] == [first];
    RunSnoc(n, [first], second);
    FirstChunk(n, a);
    SecondChunk(SqlRun(n, [first]), |a|, b);
    BothCommitted(n, first.call, second.call);
    OnlyInterval(n);
  }

  /** Two halves, and the second again with a failing commit. */
  function LostHalf(a: bytes, b: bytes): seq<Step> {
    Halves(a, b) + [Step(Call(|a|, b, None), false)]
  }

  lemma LostHalfRun(a: bytes, b: bytes)
    requires a != [] && b != []
    ensures var u := SqlRun(|a| + |b|, LostHalf(a, b));
      u.store == Store([Interval(0, |a|)], [Slice(Interval(0, |a|), 0)]) && u.counter == |a| + |b|
  {
    hide SqlRun, Halves, UploadOk;
    TwoHalves(a, b);
    LostLast(Halves(a, b), |a|, b);
  }

  lemma LostLast(steps: seq<Step>, k: nat, data: bytes)
    requires k > 0 && data != []
    requires SqlRun(k + |data|, steps).store ==
      Store([Interval(0, k + |data|)], [Slice(Interval(0, k), 0), Slice(Interval(k, k + |data|), 1)])
    ensures var u' := SqlRun(k + |data|, steps + [Step(Call(k, data, None), false)]);
      u'.store == Store([Interval(0, k)], [Slice(Interval(0, k), 0)]) && u'.counter == SqlRun(k + |data|, steps).counter
  {
    hide *;
    var u := SqlRun(k + |data|, steps);
    RunSnoc(k + |data|, steps, Step(Call(k, data, None), false));
    SecondLost(u, k, data);
    LostCounter(u, k + |data|, Call(k, data, None));
  }

  lemma LostCounter(u: Upload, total: int, call: Call)
    requires Consistent(u.store)
    ensures ChunkUp(u, total, call, false).0.counter == u.counter
  {
  }

  lemma RunSnoc(total: int, steps: seq<Step>, s: Step)
    ensures UploadOk(SqlRun(total, steps)) && Consistent(SqlRun(total, steps).store)
    ensures steps == [] ==> SqlRun(total, steps) == Start()
    ensures SqlRun(total, steps + [s]) == ChunkUp(SqlRun(total, steps), total, s.call, s.commits).0
  {
    hide ChunkUp, Consistent, RowsOk;
    assert (steps + [s])[..|steps|] == steps;
  }

  lemma OnlyInterval(k: nat)
    ensures Filled([Interval(0, k)]) == k && Points([Interval(0, k)]) == Range(0, k)
  {
    assert [Interval(0, k)][1..] == [];
    assert Filled([]) == 0 && Points([]) == {};
  }

  lemma BothCommitted(total: int, a: Call, b: Call)
    ensures var u := SqlRun(total, [Step(a, true)] + [Step(b, true)]); u.counter == Filled(u.store.intervals)
  {
    hide SqlRun, AllHarmless, Filled;
    assert Committed([a, b]) == [Step(a, true)] + [Step(b, true)];
    CommittedHarmless(total, [a, b]);
    CounterExact(total, Committed([a, b]));
  }

  /** A cut file stored as complete: a file longer than 16 MiB comes in two chunks, cut past there, and the second is sent
      again with a failing commit. Whatever the hash function, a terminate then stores the first chunk alone. */
  lemma CutFileStored(a: bytes, b: bytes, digest: bytes -> int)
    requires HASHED <= |a| && b != []
    ensures StepsAgree(a + b, LostHalf(a, b))
    ensures Moved(SqlRun(|a + b|, LostHalf(a, b)), |a + b|, digest(Window(a + b, 0, HASHED)), digest, true) == Ok(Some(a))
    ensures a != a + b
  {
    hide SqlRun, Moved, Filled, Points, Range, AllHarmless;
    LostHalfRun(a, b);
    LostHalfAgrees(a, b);
    OnlyInterval(|a|);
    SameFront(a + b, |a|);
    assert (a + b)[..|a|] == a;
    StoresFile(a + b, LostHalf(a, b), digest(Window(a + b, 0, HASHED)), digest, true);
  }

  lemma LostHalfAgrees(a: bytes, b: bytes)
    ensures StepsAgree(a + b, LostHalf(a, b))
  {
  }

  lemma SameFront(file: bytes, k: nat)
    requires HASHED <= k <= |file|
    ensures Window(file[..k], 0, HASHED) == Window(file, 0, HASHED)
  {
  }

  // ----- the object behind one placeholder

  lemma ValueAt(offset: int, data: bytes, keys: seq<Interval>, i: nat)
    requires Within(keys, offset, offset + |data|) && i < |keys|
    ensures offset <= keys[i].start <= keys[i].end <= offset + |data|
    ensures NewValues(true, Call(offset, data, None), keys)[i] == Raw(data[keys[i].start - offset .. keys[i].end - offset])
  {
    hide NewValues;
  }

  lemma AddRowFirst(rows: Rows, next: int, values: seq<Value>)
    requires values != [] && values[0].Raw?
    ensures AddRows(rows, next, values) == AddRows(rows[next := values[0].data], next + 1, values[1..])
  {
  }

  lemma AddNoRows(rows: Rows, next: int, values: seq<Value>)
    requires values == []
    ensures AddRows(rows, next, values) == rows
  {
  }

  lemma ChunkUnfolds(u: Upload, total: int, call: Call, commits: bool)
    returns (inter: seq<Interval>, c: Store<int>, keys: seq<Interval>)
    requires UploadOk(u)
    ensures call.offset > total ==> ChunkUp(u, total, call, commits) == (u, Raised(OutOfRange))
    ensures inter == Clip(u.store.intervals, call.offset, Bound(call, total))
    ensures call.offset <= total ==>
      && c == DropWhole(u.store, inter) && Separated(c.intervals)
      && keys == Holes(c.intervals, call.offset, Bound(call, total)) && Within(keys, call.offset, call.offset + |call.data|)
    ensures call.offset <= total && !commits ==> ChunkUp(u, total, call, commits) == (u.(store := c), Raised(CommitFailed))
    ensures call.offset <= total && commits ==>
      var growth := Filled(keys) + DropGrowth(u.store.slices, inter);
      ChunkUp(u, total, call, commits) ==
        (Upload(Store(Merge(c.intervals, call.offset, Bound(call, total)), WithAll(c.slices, keys, Numbers(u.next, |keys|))),
                AddRows(DropRows(u.store.slices, inter, u.rows), u.next, NewValues(true, call, keys)),
                u.next + |keys|, u.counter + growth), Ok(growth))
  {
    hide Points, Separated, Tiled, Covered, Clip, Holes, DropWhole, DropGrowth, DropRows, Merge, WithAll, AddRows,
      Numbers, NewValues, RowsOk, Filled;
    inter := Clip(u.store.intervals, call.offset, Bound(call, total));
    c, keys := DropWhole(u.store, inter), [];
    if call.offset <= total {
      ClearedConsistent(u.store, call.offset, Bound(call, total));
      keys := Holes(c.intervals, call.offset, Bound(call, total));
    }
  }

  class SqlUpload {
    const total: int
    const interval: IntervalUnion
    var slices: seq<Slice<int>>
    var uploadedSize: int
    // The chunk table of the database, with the next row number it hands out.
    var rows: Rows
    var next: int

    ghost function Abs(): Upload
      reads this, interval
    {
      Upload(Store(interval.intervals, slices), rows, next, uploadedSize)
    }

    constructor (totalSize: int)
      ensures Abs() == Start() && total == totalSize && fresh(interval)
    {
      total, slices, uploadedSize, rows, next := totalSize, [], 0, map[], 0;
      interval := new IntervalUnion();
    }

    method UploadChunkAt(offset: int, data: bytes, commits: bool) returns (r: Outcome<int, SqlError>)
      requires UploadOk(Abs())
      modifies this, interval
      ensures UploadOk(Abs())
      ensures Abs() == ChunkUp(old(Abs()), total, Call(offset, data, None), commits).0
      ensures r == ChunkUp(old(Abs()), total, Call(offset, data, None), commits).1
    {
      ghost var call, u := Call(offset, data, None), Abs();
      hide UploadOk, Clip, Holes, DropWhole, DropGrowth, DropRows, Merge, WithAll, AddRows, Numbers, NewValues, Within, Filled,
        ChunkUp, Separated;
      StepOk(u, total, Step(call, commits));
      ghost var inter, c, keys := ChunkUnfolds(u, total, call, commits);
      var end := Min(offset + |data|, total);
      var ok, holes, updated, session := PrepareSession(offset, end, data);
      if !ok {
        return Raised(OutOfRange);
      }
      if !commits {
        return Raised(CommitFailed);  // the rows are rolled back
      }
      rows := session;
      r := Record(offset, end, holes, updated);
    }

    /** Everything before the commit: drop the slices the chunk covers, and put its new rows into the session. */
    method PrepareSession(offset: int, end: int, data: bytes) returns (ok: bool, keys: seq<Interval>, updated: int, session: Rows)
      requires UploadOk(Abs()) && end == Min(offset + |data|, total)
      modifies `slices, interval
      ensures ok == (offset <= total)
      ensures !ok ==> Abs() == old(Abs())
      ensures ok ==>
        var inter := Clip(old(interval.intervals), offset, end);
        && Abs().store == DropWhole(old(Abs().store), inter) && Separated(interval.intervals)
        && keys == Holes(interval.intervals, offset, end) && Within(keys, offset, offset + |data|)
        && updated == DropGrowth(old(slices), inter)
        && session == AddRows(DropRows(old(slices), inter, rows), next, NewValues(true, Call(offset, data, None), keys))
    {
      ghost var call, u := Call(offset, data, None), Abs();
      hide Points, Tiled, Covered, Clip, Holes, DropWhole, DropGrowth, DropRows, AddRows, NewValues, Within, RowsOk, ChunkUp,
        Separated, Merge, WithAll, Numbers, Filled;
      ghost var _, _, _ := ChunkUnfolds(u, total, call, true);
      var intersection := interval.Intersect(offset, end);
      updated, session := DropSlices(intersection.intervals);
      var holes;
      keys := [];
      ok, holes := interval.IntersectDifference(offset, end);
      if !ok {
        ClipEmpty(u.store.intervals, offset, end);
        DropNothing(u.store);
        return;
      }
      keys := holes.intervals;
      session := AddChunks(session, offset, data, keys);
    }

    /** After the commit: the slices point at the new rows, and interval and counter are brought up to date. */
    method Record(start: int, end: int, keys: seq<Interval>, updated: int) returns (r: Outcome<int, SqlError>)
      requires Separated(interval.intervals) && start <= end
      modifies this, interval
      ensures Abs() == Upload(Store(Merge(old(interval.intervals), start, end), WithAll(old(slices), keys, Numbers(old(next), |keys|))),
                              old(rows), old(next) + |keys|, old(uploadedSize) + (Filled(keys) + updated))
      ensures r == Ok(Filled(keys) + updated)
    {
      hide Merge, WithAll, Numbers, Filled;
      PointAtRows(keys);
      var _, _ := interval.Add(start, end);
      uploadedSize := uploadedSize + Filled(keys) + updated;
      r := Ok(Filled(keys) + updated);
    }

    /** Delete every slice that is exactly one of the intervals, and in the session its row. */
    method DropSlices(inter: seq<Interval>) returns (updated: int, session: Rows)
      requires Consistent(Abs().store)
      modifies `slices, interval
      ensures Abs().store == DropWhole(old(Abs().store), inter) && Consistent(Abs().store)
      ensures updated == DropGrowth(old(slices), inter) && session == DropRows(old(slices), inter, rows)
    {
      hide Points, Separated, Tiled, Covered, HasKey, Without, Cut;
      updated, session := 0, rows;
      ghost var from, rest := Abs().store, inter;
      var i := 0;
      while i < |inter|
        invariant 0 <= i <= |inter| && rest == inter[i..]
        invariant Dropping(from, inter, Abs().store, rest, updated)
        invariant DropRows(slices, rest, session) == DropRows(from.slices, inter, rows)
      {
        DroppingStep(from, inter, Abs().store, rest, updated);
        var k := inter[i];
        if HasKey(slices, k) {
          session := session - {IdOf(slices, k)};
          slices := Without(slices, k);
          var _, _ := interval.Delete(k.start, k.end);
          updated := updated + k.start - k.end;
        }
        i := i + 1;
        rest := rest[1..];
      }
    }

    /** Add a row for every hole to the session. */
    method AddChunks(before: Rows, offset: int, data: bytes, keys: seq<Interval>) returns (session: Rows)
      requires Within(keys, offset, offset + |data|)
      ensures session == AddRows(before, next, NewValues(true, Call(offset, data, None), keys))
    {
      hide AddRows, NewValues, NewValue, Within;
      ghost var values := NewValues(true, Call(offset, data, None), keys);
      ghost var rest := values;
      session := before;
      var i, row := 0, next;
      while i < |keys|
        invariant 0 <= i <= |keys| && rest == values[i..]
        invariant AddRows(session, row, rest) == AddRows(before, next, values)
      {
        ValueAt(offset, data, keys, i);
        AddRowFirst(session, row, rest);
        session := session[row := data[keys[i].start - offset .. keys[i].end - offset]];
        i, row := i + 1, row + 1;
        rest := rest[1..];
      }
      AddNoRows(session, row, rest);
    }

    /** Once the rows are in, the slices point at them. */
    method PointAtRows(keys: seq<Interval>)
      modifies `slices, `next
      ensures slices == WithAll(old(slices), keys, Numbers(old(next), |keys|)) && next == old(next) + |keys|
    {
      var i := 0;
      while i < |keys|
        invariant 0 <= i <= |keys| && next == old(next) + i
        invariant WithAll(slices, keys[i..], Numbers(next, |keys| - i)) == WithAll(old(slices), keys, Numbers(old(next), |keys|))
      {
        assert keys[i..][1..] == keys[i + 1..];
        assert Numbers(next, |keys| - i)[1..] == Numbers(next + 1, |keys| - i - 1);
        slices := With(slices, keys[i], next);
        next := next + 1;
        i := i + 1;
      }
    }

    /** Join the rows in slice order, and check the hash of the front. */
    method CheckFinal(hash: int, digest: bytes -> int, commits: bool) returns (r: Outcome<Option<bytes>, SqlError>)
      ensures r == Moved(Abs(), total, hash, digest, commits)
    {
      if uploadedSize != total { return Ok(None); }
      var full: bytes, cur, i := [], 0, 0;
      hide JoinRows, Joins;
      Prepended([], JoinRows(slices, rows, 0));
      assert slices[0..] == slices;
      while i < |slices|
        invariant 0 <= i <= |slices|
        invariant JoinRows(slices, rows, 0) == Joins(full, JoinRows(slices[i..], rows, cur))
      {
        JoinRowsAt(slices, rows, i, cur, full);
        if slices[i].key.start != cur { return Raised(BadSlices); }
        var content := if slices[i].value in rows then rows[slices[i].value] else [];
        full, cur, i := full + content, cur + |content|, i + 1;
      }
      JoinedAll(slices, rows, i, cur, full);
      if full == [] { return Raised(NothingToHash); }
      if digest(Window(full, 0, HASHED)) != hash { return Raised(HashMismatch); }
      if !commits { return Raised(CommitFailed); }
      r := Ok(Some(full));
    }
  }

  function Joins(front: bytes, r: Outcome<bytes, SqlError>): Outcome<bytes, SqlError> {
    if r.Raised? then r else Ok(front + r.value)
  }

  lemma Prepended(front: bytes, r: Outcome<bytes, SqlError>)
    ensures front == [] ==> Joins(front, r) == r
  {
    if r.Ok? { Units(r.value); }
  }

  lemma JoinRowsAt(sl: seq<Slice<int>>, rows: Rows, i: nat, cur: int, front: bytes)
    requires i < |sl|
    ensures sl[i].key.start != cur ==> Joins(front, JoinRows(sl[i..], rows, cur)) == Raised(BadSlices)
    ensures sl[i].key.start == cur ==>
      var content := if sl[i].value in rows then rows[sl[i].value] else [];
      Joins(front, JoinRows(sl[i..], rows, cur)) == Joins(front + content, JoinRows(sl[i + 1..], rows, cur + |content|))
  {
    assert sl[i..][1..] == sl[i + 1..];
    var content := if sl[i].value in rows then rows[sl[i].value] else [];
    JoinsNext(front, content, JoinRows(sl[i + 1..], rows, cur + |content|));
  }

  lemma JoinedAll(sl: seq<Slice<int>>, rows: Rows, i: nat, cur: int, full: bytes)
    requires i == |sl|
    ensures Joins(full, JoinRows(sl[i..], rows, cur)) == Ok(full)
  {
    Units(full);
  }

  lemma JoinsNext(front: bytes, content: bytes, r: Outcome<bytes, SqlError>)
    ensures Joins(front, Joins(content, r)) == Joins(front + content, r)
  {
    if r.Ok? { Assoc(front, content, r.value); }
  }
}
