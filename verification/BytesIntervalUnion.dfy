/** The chunk assembler: byte chunks arrive in any order, overlapping and repeated, and are kept as an
    interval list plus a sorted index of slices. It also runs without data, keeping marks instead. */
module ByteUnion {
  import opened Common
  import opened Intervals
  import opened Slices

  /** What a slice holds: the bytes, or (when data is not stored) an index and a size. */
  datatype Value = Raw(data: bytes) | Mark(index: int, size: int)

  datatype Failure = BadRange | BadUnion

  datatype Call = Call(offset: int, data: bytes, sliceIndex: Option<int>)

  function Bound(call: Call, total: int): int { Min(call.offset + |call.data|, total) }

  /** The value stored under a new key. */
  function NewValue(storeData: bool, call: Call, k: Interval): Value
    requires call.offset <= k.start <= k.end <= call.offset + |call.data|
  {
    if storeData then Raw(call.data[k.start - call.offset .. k.end - call.offset])
    else if call.sliceIndex.Some? then Mark(call.sliceIndex.value, k.end - k.start)
    else Mark(k.end - k.start, k.end - k.start)
  }

  function NewValues(storeData: bool, call: Call, keys: seq<Interval>): (values: seq<Value>)
    requires Within(keys, call.offset, call.offset + |call.data|)
    ensures |values| == |keys|
    ensures forall i :: 0 <= i < |keys| ==> values[i] == NewValue(storeData, call, keys[i])
  {
    if keys == [] then []
    else
      assert forall i :: 0 <= i < |keys[1..]| ==> keys[1..][i] == keys[i + 1];
      [NewValue(storeData, call, keys[0])] + NewValues(storeData, call, keys[1..])
  }

  /** One call: the new store. A call that starts beyond the end raises and changes nothing. */
  ghost function After(st: Store<Value>, total: int, storeData: bool, call: Call): Store<Value>
    requires Consistent(st)
  {
    if call.offset > total then st
    else
      ClearedConsistent(st, call.offset, Bound(call, total));
      Upload(st, call.offset, Bound(call, total),
             NewValues(storeData, call, NewKeys(st, call.offset, Bound(call, total))))
  }

  /** One call: what it returns. */
  function Returned(st: Store<Value>, total: int, call: Call): Outcome<int, Failure> {
    if call.offset > total then Raised(BadRange) else Ok(Growth(st, call.offset, Bound(call, total)))
  }

  ghost function Empty(): (st: Store<Value>)
    ensures Consistent(st)
  {
    Store([], [])
  }

  lemma AfterIsUpload(st: Store<Value>, total: int, storeData: bool, call: Call)
    requires Consistent(st) && call.offset <= total
    ensures var a, b := call.offset, Bound(call, total);
      && Within(NewKeys(st, a, b), a, a + |call.data|)
      && After(st, total, storeData, call) == Upload(st, a, b, NewValues(storeData, call, NewKeys(st, a, b)))
  {
    ClearedConsistent(st, call.offset, Bound(call, total));
  }

  lemma AfterUnfolds(st: Store<Value>, total: int, storeData: bool, call: Call)
    requires Consistent(st) && call.offset <= total
    ensures var a, b := call.offset, Bound(call, total);
      var c, keys := Cleared(st, a, b), NewKeys(st, a, b);
      && Within(keys, a, a + |call.data|)
      && After(st, total, storeData, call) == Store(Merge(c.intervals, a, b), WithAll(c.slices, keys, NewValues(storeData, call, keys)))
  {
    ClearedConsistent(st, call.offset, Bound(call, total));
  }

  lemma AfterConsistent(st: Store<Value>, total: int, storeData: bool, call: Call)
    requires Consistent(st)
    ensures Consistent(After(st, total, storeData, call))
    ensures call.offset <= total ==>
      Points(After(st, total, storeData, call).intervals) == Points(st.intervals) + Range(call.offset, Bound(call, total))
  {
    if call.offset <= total {
      ClearedConsistent(st, call.offset, Bound(call, total));
      UploadConsistent(st, call.offset, Bound(call, total),
                       NewValues(storeData, call, NewKeys(st, call.offset, Bound(call, total))));
    }
  }

  /** The store after a sequence of calls. */
  ghost function Run(total: int, storeData: bool, calls: seq<Call>): (st: Store<Value>)
    ensures Consistent(st)
  {
    if calls == [] then Empty()
    else
      var before := Run(total, storeData, calls[..|calls| - 1]);
      var last := calls[|calls| - 1];
      AfterConsistent(before, total, storeData, last);
      After(before, total, storeData, last)
  }

  // ----- reading the file back

  function Complete(st: Store<Value>, total: int): bool { Filled(st.intervals) == total }

  function Size(v: Value): int { if v.Raw? then |v.data| else v.size }

  /** `complete_data_exn` walks the slices in order and demands that each one starts where the last ended. */
  function Pieces(sl: seq<Slice<Value>>, cur: int): Outcome<seq<Value>, Failure> {
    if sl == [] then Ok([])
    else if sl[0].key.start != cur then Raised(BadUnion)
    else
      var rest := Pieces(sl[1..], cur + Size(sl[0].value));
      if rest.Ok? then Ok([sl[0].value] + rest.value) else rest
  }

  ghost function SizeOf(values: seq<Value>): int {
    if values == [] then 0 else Size(values[0]) + SizeOf(values[1..])
  }

  /** Reading one slice further. */
  lemma {:induction false} PiecesSnoc(sl: seq<Slice<Value>>, cur: int, s: Slice<Value>)
    requires Pieces(sl, cur).Ok?
    ensures var values := Pieces(sl, cur).value;
      Pieces(sl + [s], cur) == if s.key.start == cur + SizeOf(values) then Ok(values + [s.value]) else Raised(BadUnion)
  {
    if sl == [] {
      assert sl + [s] == [s];
      assert [s][1..] == [] && Pieces([], cur + Size(s.value)) == Ok([]);
      assert Pieces(sl, cur).value + [s.value] == [s.value] + [];
    } else {
      assert (sl + [s])[0] == sl[0] && (sl + [s])[1..] == sl[1..] + [s];
      PiecesSnoc(sl[1..], cur + Size(sl[0].value), s);
      var rest := Pieces(sl[1..], cur + Size(sl[0].value)).value;
      assert ([sl[0].value] + rest)[1..] == rest;
      assert [sl[0].value] + (rest + [s.value]) == [sl[0].value] + rest + [s.value];
    }
  }

  lemma {:induction false} SizeOfSnoc(values: seq<Value>, v: Value)
    ensures SizeOf(values + [v]) == SizeOf(values) + Size(v)
  {
    if values == [] {
      assert [] + [v] == [v];
    } else {
      assert (values + [v])[1..] == values[1..] + [v];
      SizeOfSnoc(values[1..], v);
    }
  }

  /** Once a front cannot be read, neither can the whole. */
  lemma {:induction false} PiecesFront(sl: seq<Slice<Value>>, cur: int, k: nat)
    requires k <= |sl| && Pieces(sl[..k], cur).Raised?
    ensures Pieces(sl, cur).Raised?
  {
    if sl[0].key.start == cur {
      assert sl[..k][1..] == sl[1..][..k - 1];
      PiecesFront(sl[1..], cur + Size(sl[0].value), k - 1);
    }
  }

  function Joined(values: seq<Value>): bytes {
    if values == [] then [] else (if values[0].Raw? then values[0].data else []) + Joined(values[1..])
  }

  ghost predicate GoodSlice(s: Slice<Value>, storeData: bool) {
    Size(s.value) == s.key.end - s.key.start && (storeData ==> s.value.Raw?)
  }

  /** Every value has its key's length, and is made of bytes where data is stored. */
  ghost predicate Good(sl: seq<Slice<Value>>, storeData: bool) {
    sl != [] ==> GoodSlice(sl[0], storeData) && Good(sl[1..], storeData)
  }

  lemma {:induction false} GoodMember(sl: seq<Slice<Value>>, storeData: bool, s: Slice<Value>)
    requires Good(sl, storeData) && s in sl
    ensures GoodSlice(s, storeData)
  {
    if sl[0] != s { GoodMember(sl[1..], storeData, s); }
  }

  lemma {:induction false} GoodAll(sl: seq<Slice<Value>>, storeData: bool)
    requires forall s :: s in sl ==> GoodSlice(s, storeData)
    ensures Good(sl, storeData)
  {
    if sl != [] { GoodAll(sl[1..], storeData); }
  }

  /** The byte held at point `p`. */
  ghost function ByteAt(sl: seq<Slice<Value>>, p: int): Option<byte> {
    var s := SliceAt(sl, p);
    if s.Some? && s.value.value.Raw? && 0 <= p - s.value.key.start < |s.value.value.data|
    then Some(s.value.value.data[p - s.value.key.start]) else None
  }

  // ----- what every run keeps

  lemma {:induction false} MembersAt<V>(sl: seq<Slice<V>>, s: Slice<V>)
    requires Tiled(sl) && s in sl
    ensures s.key.start < s.key.end && SliceAt(sl, s.key.start) == Some(s)
    ensures forall b :: KeysFrom(sl, b) ==> b <= s.key.start
  {
    if sl[0] != s { MembersAt(sl[1..], s); }
  }

  /** Slices always have their key's length; with data stored they are bytes. */
  lemma AfterGood(st: Store<Value>, total: int, storeData: bool, call: Call)
    requires Consistent(st) && Good(st.slices, storeData)
    ensures Good(After(st, total, storeData, call).slices, storeData)
  {
    forall s | s in After(st, total, storeData, call).slices ensures GoodSlice(s, storeData) {
      AfterMember(st, total, storeData, call, s);
    }
    GoodAll(After(st, total, storeData, call).slices, storeData);
  }

  /** The slice at `p` after a call is the one before it, or a new one cut from the call's data. */
  lemma SliceAfter(st: Store<Value>, total: int, storeData: bool, call: Call, p: int) returns (k: Interval)
    requires Consistent(st)
    ensures var now := SliceAt(After(st, total, storeData, call).slices, p);
      || now == SliceAt(st.slices, p)
      || (call.offset <= k.start <= p < k.end <= Bound(call, total) && now == Some(Slice(k, NewValue(storeData, call, k))))
  {
    k := Interval(p, p);
    if call.offset <= total {
      hide Points, Separated, NoEmpty, Tiled, Covered, Holes, SliceAt, WithAll, Merge, Upload, NewKeys, Cleared, Filled;
      hide Clip, Kept, KeyIndex;
      var b := Bound(call, total);
      KeptIs(st.slices, Clip(st.intervals, call.offset, b), p);
      ClearedConsistent(st, call.offset, b);
      var keys := NewKeys(st, call.offset, b);
      UploadSliceAt(st, call.offset, b, NewValues(storeData, call, keys), p);
      if KeyIndex(keys, p) < |keys| { k := keys[KeyIndex(keys, p)]; }
    }
  }

  lemma AfterMember(st: Store<Value>, total: int, storeData: bool, call: Call, s: Slice<Value>)
    requires Consistent(st) && Good(st.slices, storeData) && s in After(st, total, storeData, call).slices
    ensures GoodSlice(s, storeData)
  {
    hide Good, Points, Separated, Tiled, Covered, SliceAt, Upload, NewKeys;
    AfterConsistent(st, total, storeData, call);
    MembersAt(After(st, total, storeData, call).slices, s);
    var k := SliceAfter(st, total, storeData, call, s.key.start);
    SliceAtCovered(st.slices, s.key.start);
    if s in st.slices { GoodMember(st.slices, storeData, s); }
  }

  lemma {:induction false} RunGood(total: int, storeData: bool, calls: seq<Call>)
    ensures Good(Run(total, storeData, calls).slices, storeData)
    decreases |calls|
  {
    if calls != [] {
      var before := calls[..|calls| - 1];
      RunGood(total, storeData, before);
      AfterGood(Run(total, storeData, before), total, storeData, calls[|calls| - 1]);
    }
  }

  /** `v` was supplied for point `p` by call number `i`, which did not raise. */
  ghost predicate Supplied(total: int, calls: seq<Call>, p: int, v: byte, i: nat) {
    && i < |calls| && calls[i].offset <= p < Bound(calls[i], total)
    && calls[i].data[p - calls[i].offset] == v
  }

  lemma BytesCovered(st: Store<Value>, p: int)
    requires Consistent(st) && Good(st.slices, true)
    ensures ByteAt(st.slices, p).Some? <==> p in Points(st.intervals)
  {
    SliceAtCovered(st.slices, p);
    if p in Covered(st.slices) { GoodMember(st.slices, true, SliceAt(st.slices, p).value); }
  }

  /** A byte held after a call was held before it, or comes from the call's own data for that point. */
  lemma ByteAfter(st: Store<Value>, total: int, call: Call, p: int)
    requires Consistent(st) && Good(st.slices, true)
    ensures var after := After(st, total, true, call);
      || ByteAt(after.slices, p) == ByteAt(st.slices, p)
      || (call.offset <= p < Bound(call, total) && ByteAt(after.slices, p) == Some(call.data[p - call.offset]))
  {
    hide After, SliceAt, Good;
    var k := SliceAfter(st, total, true, call, p);
    if call.offset <= k.start <= p < k.end <= Bound(call, total) { NewValueByte(call, k, p); }
  }

  lemma NewValueByte(call: Call, k: Interval, p: int)
    requires call.offset <= k.start <= p < k.end <= call.offset + |call.data|
    ensures NewValue(true, call, k).data[p - k.start] == call.data[p - call.offset]
  {
  }

  /** Every byte held was supplied, at its own position, by one of the calls. */
  lemma {:induction false} Provenance(total: int, calls: seq<Call>, p: int) returns (i: nat)
    requires p in Points(Run(total, true, calls).intervals)
    ensures ByteAt(Run(total, true, calls).slices, p).Some?
    ensures Supplied(total, calls, p, ByteAt(Run(total, true, calls).slices, p).value, i)
    decreases |calls|
  {
    assert calls != [];
    var n := |calls| - 1;
    var before, call := calls[..n], calls[n];
    var st := Run(total, true, before);
    RunGood(total, true, before);
    RunGood(total, true, calls);
    ByteAfter(st, total, call, p);
    BytesCovered(Run(total, true, calls), p);
    BytesCovered(st, p);
    var v := ByteAt(Run(total, true, calls).slices, p).value;
    if call.offset <= p < Bound(call, total) && v == call.data[p - call.offset] {
      return n;
    }
    i := Provenance(total, before, p);
  }

  /** Where data is not stored, the slice that holds a point was made by one of the calls that name it, and is marked with
      that call's index, or with its own length if the call gave none. */
  lemma {:induction false} MarkProvenance(total: int, calls: seq<Call>, p: int) returns (i: nat)
    requires p in Points(Run(total, false, calls).intervals)
    ensures i < |calls| && calls[i].offset <= p < Bound(calls[i], total)
    ensures var s := SliceAt(Run(total, false, calls).slices, p);
      && s.Some? && s.value.key.start <= p < s.value.key.end
      && var size := s.value.key.end - s.value.key.start;
        s.value.value == if calls[i].sliceIndex.Some? then Mark(calls[i].sliceIndex.value, size) else Mark(size, size)
    decreases |calls|
  {
    assert calls != [];
    var n := |calls| - 1;
    var before, call := calls[..n], calls[n];
    hide After, SliceAt, Consistent, Points;
    var st, now := Run(total, false, before), Run(total, false, calls);
    HeldAt(st, p);
    HeldAt(now, p);
    var k := SliceAfter(st, total, false, call, p);
    if SliceAt(now.slices, p) == SliceAt(st.slices, p) {
      i := MarkProvenance(total, before, p);
    } else {
      i := n;
    }
  }

  lemma HeldAt(st: Store<Value>, p: int)
    requires Consistent(st)
    ensures p in Points(st.intervals) <==> SliceAt(st.slices, p).Some?
    ensures SliceAt(st.slices, p).Some? ==> SliceAt(st.slices, p).value.key.start <= p < SliceAt(st.slices, p).value.key.end
  {
    SliceAtCovered(st.slices, p);
  }

  /** The indices read back are those of the marks, one each, in order. */
  lemma {:induction false} IndicesInOrder(values: seq<Value>, k: nat)
    requires k < |values| && forall i :: 0 <= i < |values| ==> values[i].Mark?
    ensures |MarkIndices(values)| == |values| && MarkIndices(values)[k] == values[k].index
    decreases |values|
  {
    assert values[0].Mark? && forall i :: 0 <= i < |values[1..]| ==> values[1..][i] == values[i + 1];
    if |values| == 1 {
      assert values[1..] == [];
    } else {
      IndicesInOrder(values[1..], if k == 0 then 0 else k - 1);
    }
  }

  ghost predicate Names(call: Call, total: int, p: int) { call.offset <= p < Bound(call, total) }

  ghost predicate SomeNames(total: int, calls: seq<Call>, p: int) {
    calls != [] && (Names(calls[|calls| - 1], total, p) || SomeNames(total, calls[..|calls| - 1], p))
  }

  lemma {:induction false} SomeNamesAt(total: int, calls: seq<Call>, p: int)
    ensures SomeNames(total, calls, p) <==> exists i :: 0 <= i < |calls| && Names(calls[i], total, p)
    decreases |calls|
  {
    if calls != [] {
      var n := |calls| - 1;
      SomeNamesAt(total, calls[..n], p);
      assert forall i :: 0 <= i < n ==> calls[..n][i] == calls[i];
    }
  }

  /** Exactly the points named by some call that did not raise are covered. */
  lemma {:induction false} RunPoints(total: int, storeData: bool, calls: seq<Call>, p: int)
    ensures p in Points(Run(total, storeData, calls).intervals) <==> SomeNames(total, calls, p)
    decreases |calls|
  {
    if calls != [] {
      hide Points, Separated, Tiled, Covered, After;
      var n := |calls| - 1;
      RunPoints(total, storeData, calls[..n], p);
      AfterConsistent(Run(total, storeData, calls[..n]), total, storeData, calls[n]);
      if calls[n].offset > total { AfterRaised(Run(total, storeData, calls[..n]), total, storeData, calls[n]); }
    }
  }

  lemma AfterRaised(st: Store<Value>, total: int, storeData: bool, call: Call)
    requires Consistent(st) && call.offset > total
    ensures After(st, total, storeData, call) == st
  {
  }

  // ----- completeness

  /** `all` is one stretch of points that begins at `cur`. */
  ghost predicate Stretch(all: set<int>, cur: int) { all == Range(cur, cur + |all|) }

  lemma StretchStep(a: int, b: int, tail: set<int>, all: set<int>, cur: int)
    requires a < b && all == Range(a, b) + tail && forall p :: p in tail ==> b <= p
    ensures |all| == b - a + |tail|
    ensures Stretch(all, cur) <==> a == cur && Stretch(tail, b)
  {
    RangeSize(a, b);
    DisjointSize(Range(a, b), tail);
    if Stretch(all, cur) { StretchHead(a, b, tail, all, cur); }
    if a == cur && Stretch(tail, b) {
      assert all == Range(cur, cur + |all|);
    }
  }

  lemma StretchHead(a: int, b: int, tail: set<int>, all: set<int>, cur: int)
    requires a < b && all == Range(a, b) + tail && (forall p :: p in tail ==> b <= p)
    requires |all| == b - a + |tail| && Stretch(all, cur)
    ensures a == cur && Stretch(tail, b)
  {
    assert cur in all && a in all;
    assert tail == Range(b, b + |tail|);
  }

  lemma UnconsCovered(sl: seq<Slice<Value>>, storeData: bool, cur: int)
    requires sl != [] && Tiled(sl) && Good(sl, storeData)
    ensures Tiled(sl[1..]) && Good(sl[1..], storeData) && GoodSlice(sl[0], storeData)
    ensures |Covered(sl)| == Size(sl[0].value) + |Covered(sl[1..])|
    ensures Stretch(Covered(sl), cur) <==> sl[0].key.start == cur && Stretch(Covered(sl[1..]), sl[0].key.end)
  {
    CoveredFrom(sl[1..], sl[0].key.end);
    StretchStep(sl[0].key.start, sl[0].key.end, Covered(sl[1..]), Covered(sl), cur);
  }

  lemma UnconsPieces(sl: seq<Slice<Value>>, cur: int)
    requires sl != [] && GoodSlice(sl[0], false)
    ensures Pieces(sl, cur).Ok? <==> sl[0].key.start == cur && Pieces(sl[1..], sl[0].key.end).Ok?
    ensures Pieces(sl, cur).Ok? ==> Pieces(sl, cur).value == [sl[0].value] + Pieces(sl[1..], sl[0].key.end).value
  {
  }

  /** Walking the slices succeeds exactly when they cover one stretch that begins at `cur`. */
  lemma {:induction false} PiecesCover(sl: seq<Slice<Value>>, storeData: bool, cur: int)
    requires Tiled(sl) && Good(sl, storeData)
    ensures Pieces(sl, cur).Ok? <==> Stretch(Covered(sl), cur)
    decreases |sl|
  {
    if sl != [] {
      hide Covered, Tiled, Stretch, Good, Pieces;
      UnconsCovered(sl, storeData, cur);
      UnconsPieces(sl, cur);
      PiecesCover(sl[1..], storeData, sl[0].key.end);
    }
  }

  lemma JoinedCons(v: bytes, rest: seq<Value>)
    ensures Joined([Raw(v)] + rest) == v + Joined(rest)
  {
  }

  lemma ByteCons(sl: seq<Slice<Value>>, rest: bytes, p: int)
    requires sl != [] && GoodSlice(sl[0], true) && sl[0].key.start <= p < sl[0].key.end + |rest|
    requires p >= sl[0].key.end ==> ByteAt(sl[1..], p) == Some(rest[p - sl[0].key.end])
    ensures ByteAt(sl, p) == Some((sl[0].value.data + rest)[p - sl[0].key.start])
  {
  }

  lemma NoBytes(sl: seq<Slice<Value>>, cur: int)
    requires sl == []
    ensures Pieces(sl, cur).Ok? && |Joined(Pieces(sl, cur).value)| == 0 == |Covered(sl)|
  {
  }

  /** What the walk yields is, byte for byte, what the slices hold. */
  lemma {:induction false} PiecesBytes(sl: seq<Slice<Value>>, cur: int)
    requires Tiled(sl) && Good(sl, true) && Pieces(sl, cur).Ok?
    ensures |Joined(Pieces(sl, cur).value)| == |Covered(sl)|
    ensures forall p :: cur <= p < cur + |Covered(sl)| ==> ByteAt(sl, p) == Some(Joined(Pieces(sl, cur).value)[p - cur])
    decreases |sl|
  {
    hide Covered, Tiled, Range, Good, Pieces, Joined, Stretch, ByteAt;
    if sl == [] {
      NoBytes(sl, cur);
    } else {
      var s, tail := sl[0], sl[1..];
      UnconsCovered(sl, true, cur);
      UnconsPieces(sl, cur);
      PiecesBytes(tail, s.key.end);
      var rest := Joined(Pieces(tail, s.key.end).value);
      JoinedCons(s.value.data, Pieces(tail, s.key.end).value);
      forall p | cur <= p < cur + |Covered(sl)| ensures ByteAt(sl, p) == Some((s.value.data + rest)[p - cur]) {
        ByteCons(sl, rest, p);
      }
    }
  }

  lemma FullRange(a: set<int>, n: int)
    requires |a| == n && forall p :: p in a ==> 0 <= p < n
    ensures a == Range(0, n)
  {
    RangeSize(0, n);
    assert a <= Range(0, n);
    DisjointSize(a, Range(0, n) - a);
    assert a + (Range(0, n) - a) == Range(0, n);
  }

  /** No non-empty chunk was placed at a negative offset. */
  ghost predicate NoneNegative(total: int, calls: seq<Call>) {
    forall i :: 0 <= i < |calls| && calls[i].offset < Bound(calls[i], total) ==> calls[i].offset >= 0
  }

  lemma NoneNegativePoints(total: int, storeData: bool, calls: seq<Call>)
    ensures NoneNegative(total, calls) <==> forall p :: p in Points(Run(total, storeData, calls).intervals) ==> 0 <= p
    ensures forall p :: p in Points(Run(total, storeData, calls).intervals) ==> p < total
  {
    hide Run, Points, SomeNames;
    var pts := Points(Run(total, storeData, calls).intervals);
    forall p | p in pts ensures p < total && (NoneNegative(total, calls) ==> 0 <= p) {
      RunPoints(total, storeData, calls, p);
      SomeNamesAt(total, calls, p);
    }
    if !NoneNegative(total, calls) {
      var i :| 0 <= i < |calls| && calls[i].offset < Bound(calls[i], total) && calls[i].offset < 0;
      RunPoints(total, storeData, calls, calls[i].offset);
      SomeNamesAt(total, calls, calls[i].offset);
      assert Names(calls[i], total, calls[i].offset);
    }
  }

  /** Once complete, reading succeeds exactly when no chunk was placed before the start of the file. */
  lemma CompleteReadable(total: int, storeData: bool, calls: seq<Call>)
    requires Complete(Run(total, storeData, calls), total)
    ensures Pieces(Run(total, storeData, calls).slices, 0).Ok? <==> NoneNegative(total, calls)
    ensures NoneNegative(total, calls) ==> Covered(Run(total, storeData, calls).slices) == Range(0, total)
  {
    hide Run, Points, Covered, Separated, Tiled, Filled, Range, NoneNegative, Pieces;
    var st := Run(total, storeData, calls);
    RunGood(total, storeData, calls);
    FilledIsCardinality(st.intervals);
    PiecesCover(st.slices, storeData, 0);
    NoneNegativePoints(total, storeData, calls);
    if NoneNegative(total, calls) { FullRange(Points(st.intervals), total); }
  }

  /** A chunk placed before the start makes the byte count right and the file unreadable. */
  lemma NegativeOffsetUnreadable(v: byte)
    ensures var calls := [Call(-1, [v], None)];
      Complete(Run(1, true, calls), 1) && Pieces(Run(1, true, calls).slices, 0) == Raised(BadUnion)
  {
    var call := Call(-1, [v], None);
    var calls := [call];
    assert calls[..|calls| - 1] == [] && Run(1, true, []) == Empty();
    var st := Run(1, true, calls);
    assert st == After(Empty(), 1, true, call);
    AfterConsistent(Empty(), 1, true, call);
    FilledIsCardinality(st.intervals);
    RangeSize(-1, 0);
    assert Points(st.intervals) == Range(-1, 0);
    CompleteReadable(1, true, calls);
    assert !NoneNegative(1, calls);
  }

  /** The chunk carries bytes of `file`, as far as the file reaches. */
  ghost predicate AgreesWith(file: bytes, call: Call) {
    0 <= call.offset && forall p :: call.offset <= p < Bound(call, |file|) ==> call.data[p - call.offset] == file[p]
  }

  ghost predicate AllAgree(file: bytes, calls: seq<Call>) {
    forall i :: 0 <= i < |calls| ==> AgreesWith(file, calls[i])
  }

  lemma HoldsFileBytes(file: bytes, calls: seq<Call>, p: int)
    requires AllAgree(file, calls)
    requires p in Points(Run(|file|, true, calls).intervals)
    ensures 0 <= p < |file| && ByteAt(Run(|file|, true, calls).slices, p) == Some(file[p])
  {
    var i := Provenance(|file|, calls, p);
    assert AgreesWith(file, calls[i]);
  }

  lemma AgreeingNonNegative(file: bytes, calls: seq<Call>)
    requires AllAgree(file, calls)
    ensures NoneNegative(|file|, calls)
  {
    assert forall i :: 0 <= i < |calls| ==> AgreesWith(file, calls[i]);
  }

  /** Any number of chunks of one file, in any order, overlapping, repeated or empty, rebuild exactly that file. */
  lemma RebuildsFile(file: bytes, calls: seq<Call>)
    requires AllAgree(file, calls)
    requires Complete(Run(|file|, true, calls), |file|)
    ensures Pieces(Run(|file|, true, calls).slices, 0).Ok?
    ensures Joined(Pieces(Run(|file|, true, calls).slices, 0).value) == file
  {
    hide AllAgree, Run, Points, Covered, Separated, Tiled, Filled, Pieces, Joined, ByteAt, Good, NoneNegative, Complete;
    var total := |file|;
    AgreeingNonNegative(file, calls);
    CompleteReadable(total, true, calls);
    RunGood(total, true, calls);
    var st := Run(total, true, calls);
    PiecesBytes(st.slices, 0);
    RangeSize(0, total);
    var result := Joined(Pieces(st.slices, 0).value);
    forall p | 0 <= p < total ensures result[p] == file[p] {
      HoldsFileBytes(file, calls, p);
    }
  }

  // ----- accounting

  /** The sum of what the calls return. */
  ghost function TotalReturned(total: int, storeData: bool, calls: seq<Call>): int {
    if calls == [] then 0
    else
      var n := |calls| - 1;
      var r := Returned(Run(total, storeData, calls[..n]), total, calls[n]);
      TotalReturned(total, storeData, calls[..n]) + (if r.Ok? then r.value else 0)
  }

  /** The returns add up to the number of covered points, so a running counter decides completeness. */
  lemma {:induction false} ReturnsAddUp(total: int, storeData: bool, calls: seq<Call>)
    ensures TotalReturned(total, storeData, calls) == Filled(Run(total, storeData, calls).intervals)
         == |Points(Run(total, storeData, calls).intervals)|
    ensures Complete(Run(total, storeData, calls), total) <==> TotalReturned(total, storeData, calls) == total
    decreases |calls|
  {
    FilledIsCardinality(Run(total, storeData, calls).intervals);
    if calls != [] {
      var n := |calls| - 1;
      var st, call := Run(total, storeData, calls[..n]), calls[n];
      ReturnsAddUp(total, storeData, calls[..n]);
      if call.offset <= total {
        ClearedConsistent(st, call.offset, Bound(call, total));
        UploadGrowth(st, call.offset, Bound(call, total),
                     NewValues(storeData, call, NewKeys(st, call.offset, Bound(call, total))));
      }
    }
  }

  // ----- running without data

  /** The calls cover the same ranges; their bytes and indices may differ. */
  ghost predicate SameRanges(a: seq<Call>, b: seq<Call>) {
    |a| == |b| && forall i :: 0 <= i < |a| ==> a[i].offset == b[i].offset && |a[i].data| == |b[i].data|
  }

  /** Bookkeeping does not depend on the data: with or without it, keys and returns are the same. */
  lemma {:induction false} TwinRuns(total: int, storeData: bool, calls: seq<Call>, storeData': bool, calls': seq<Call>)
    requires SameRanges(calls, calls')
    ensures SameBooks(Run(total, storeData, calls), Run(total, storeData', calls'))
    ensures TotalReturned(total, storeData, calls) == TotalReturned(total, storeData', calls')
    ensures Complete(Run(total, storeData, calls), total) <==> Complete(Run(total, storeData', calls'), total)
    decreases |calls|
  {
    if calls != [] {
      var n := |calls| - 1;
      assert SameRanges(calls[..n], calls'[..n]);
      hide After, Returned, Filled, Points, Separated, Tiled, Covered, SameKeys;
      TwinRuns(total, storeData, calls[..n], storeData', calls'[..n]);
      TwinStep(Run(total, storeData, calls[..n]), Run(total, storeData', calls'[..n]), total,
               storeData, calls[n], storeData', calls'[n]);
    }
  }

  lemma TwinStep(s: Store<Value>, t: Store<Value>, total: int, storeData: bool, call: Call, storeData': bool, call': Call)
    requires Consistent(s) && Consistent(t) && SameBooks(s, t)
    requires call.offset == call'.offset && |call.data| == |call'.data|
    ensures SameBooks(After(s, total, storeData, call), After(t, total, storeData', call'))
    ensures Returned(s, total, call) == Returned(t, total, call')
  {
    hide After, Points, Separated, Tiled, Covered, SameKeys, Upload, NewKeys, Growth, NewValues, Within;
    if call.offset <= total {
      var a, b := call.offset, Bound(call, total);
      AfterIsUpload(s, total, storeData, call);
      AfterIsUpload(t, total, storeData', call');
      SameBooksUpload(s, t, a, b, NewValues(storeData, call, NewKeys(s, a, b)), NewValues(storeData', call', NewKeys(t, a, b)));
    } else {
      AfterRaised(s, total, storeData, call);
      AfterRaised(t, total, storeData', call');
    }
  }

  // ----- the class

  lemma WithNext(sl: seq<Slice<Value>>, keys: seq<Interval>, values: seq<Value>, i: nat)
    requires |keys| == |values| && i < |keys|
    ensures WithAll(sl, keys[i..], values[i..]) == WithAll(With(sl, keys[i], values[i]), keys[i + 1..], values[i + 1..])
  {
    assert keys[i..][1..] == keys[i + 1..] && values[i..][1..] == values[i + 1..];
  }

  lemma HoleValue(storeData: bool, call: Call, keys: seq<Interval>, i: nat)
    requires Within(keys, call.offset, call.offset + |call.data|) && i < |keys|
    ensures call.offset <= keys[i].start <= keys[i].end <= call.offset + |call.data|
    ensures NewValues(storeData, call, keys)[i] == NewValue(storeData, call, keys[i])
  {
    hide NewValues, NewValue;
  }

  lemma WithNone(sl: seq<Slice<Value>>, keys: seq<Interval>, values: seq<Value>)
    requires |keys| == |values| == 0
    ensures WithAll(sl, keys, values) == sl
  {
  }

  datatype Contents = File(data: bytes) | Indices(indices: seq<int>)

  function MarkIndices(values: seq<Value>): seq<int> {
    if values == [] then [] else (if values[0].Mark? then [values[0].index] else []) + MarkIndices(values[1..])
  }

  class BytesIntervalUnion {
    const totalSize: int
    const storeData: bool
    const current: IntervalUnion
    var slices: seq<Slice<Value>>

    ghost function Abs(): Store<Value>
      reads this, current
    {
      Store(current.intervals, slices)
    }

    ghost predicate Valid()
      reads this, current
    {
      Consistent(Abs()) && Good(slices, storeData)
    }

    constructor (totalSize: int, storeData: bool)
      ensures Valid() && fresh(current)
      ensures Abs() == Empty() && this.totalSize == totalSize && this.storeData == storeData
    {
      this.totalSize, this.storeData, slices := totalSize, storeData, [];
      current := new IntervalUnion();
    }

    method UnionFrom(offset: int, data: bytes, sliceIndex: Option<int>) returns (r: Outcome<int, Failure>)
      requires Valid()
      modifies this, current
      ensures Valid()
      ensures Abs() == After(old(Abs()), totalSize, storeData, Call(offset, data, sliceIndex))
      ensures r == Returned(old(Abs()), totalSize, Call(offset, data, sliceIndex))
    {
      hide Points, Separated, Tiled, Covered, Good, Clip, Holes, DropWhole, DropGrowth, After, Merge, Absorbed, WithAll, Within;
      ghost var call := Call(offset, data, sliceIndex);
      ghost var from := Abs();
      AfterGood(from, totalSize, storeData, call);
      AfterConsistent(from, totalSize, storeData, call);
      var end := Min(offset + |data|, totalSize);
      var intersection := current.Intersect(offset, end);
      var updated := DropSlices(intersection.intervals);
      var ok, holes := current.IntersectDifference(offset, end);
      if !ok {
        ClipEmpty(from.intervals, offset, end);
        DropNothing(from);
        AfterRaised(from, totalSize, storeData, call);
        return Raised(BadRange);
      }
      AfterUnfolds(from, totalSize, storeData, call);
      FillHoles(offset, data, sliceIndex, holes.intervals);
      var _, _ := current.Add(offset, end);
      r := Ok(Filled(holes.intervals) + updated);
    }

    /** Delete every slice that is exactly one of the intervals of `inter`. */
    method DropSlices(inter: seq<Interval>) returns (updated: int)
      requires Consistent(Abs())
      modifies this, current
      ensures Abs() == DropWhole(old(Abs()), inter) && Consistent(Abs())
      ensures updated == DropGrowth(old(Abs()).slices, inter)
    {
      hide Points, Separated, Tiled, Covered, HasKey, Without, Cut;
      updated := 0;
      ghost var from, rest := Abs(), inter;
      var i := 0;
      while i < |inter|
        invariant 0 <= i <= |inter| && rest == inter[i..]
        invariant Dropping(from, inter, Abs(), rest, updated)
      {
        DroppingStep(from, inter, Abs(), rest, updated);
        var k := inter[i];
        if HasKey(slices, k) {
          slices := Without(slices, k);
          var _, _ := current.Delete(k.start, k.end);
          updated := updated + k.start - k.end;
        }
        i := i + 1;
        rest := rest[1..];
      }
    }

    /** Store a value under every hole. */
    method FillHoles(offset: int, data: bytes, sliceIndex: Option<int>, keys: seq<Interval>)
      requires Within(keys, offset, offset + |data|)
      modifies `slices
      ensures slices == WithAll(old(slices), keys, NewValues(storeData, Call(offset, data, sliceIndex), keys))
    {
      hide With, WithAll, NewValues, NewValue, Within;
      ghost var call := Call(offset, data, sliceIndex);
      ghost var values := NewValues(storeData, call, keys);
      ghost var from := slices;
      var i := 0;
      assert keys[0..] == keys && values[0..] == values;
      while i < |keys|
        invariant 0 <= i <= |keys|
        invariant WithAll(slices, keys[i..], values[i..]) == WithAll(from, keys, values)
      {
        HoleValue(storeData, call, keys, i);
        WithNext(slices, keys, values, i);
        FillHole(offset, data, sliceIndex, keys[i]);
        i := i + 1;
      }
      WithNone(slices, keys[i..], values[i..]);
    }

    method FillHole(offset: int, data: bytes, sliceIndex: Option<int>, k: Interval)
      requires offset <= k.start <= k.end <= offset + |data|
      modifies `slices
      ensures slices == With(old(slices), k, NewValue(storeData, Call(offset, data, sliceIndex), k))
    {
      hide With;
      if storeData {
        slices := With(slices, k, Raw(data[k.start - offset .. k.end - offset]));
      } else if sliceIndex.Some? {
        slices := With(slices, k, Mark(sliceIndex.value, k.end - k.start));
      } else {
        slices := With(slices, k, Mark(k.end - k.start, k.end - k.start));
      }
    }

    method IsComplete() returns (b: bool)
      ensures b == Complete(Abs(), totalSize)
    {
      b := Filled(current.intervals) == totalSize;
    }

    /** The generator form yields the values of the longest front of the slices that can be read, and raises when that
        is not all of them. */
    method CompleteDataGen() returns (yielded: seq<Value>, raised: bool)
      ensures raised <==> Pieces(slices, 0).Raised?
      ensures |yielded| <= |slices| && Pieces(slices[..|yielded|], 0) == Ok(yielded)
      ensures if raised then |yielded| < |slices| && Pieces(slices[..|yielded| + 1], 0).Raised? else |yielded| == |slices|
      ensures !raised ==> Pieces(slices, 0) == Ok(yielded)
    {
      yielded := [];
      var cur, i := 0, 0;
      while i < |slices|
        invariant 0 <= i == |yielded| <= |slices| && cur == SizeOf(yielded)
        invariant Pieces(slices[..i], 0) == Ok(yielded)
      {
        PiecesSnoc(slices[..i], 0, slices[i]);
        assert slices[..i + 1] == slices[..i] + [slices[i]];
        if slices[i].key.start != cur {
          PiecesFront(slices, 0, i + 1);
          return yielded, true;
        }
        SizeOfSnoc(yielded, slices[i].value);
        yielded := yielded + [slices[i].value];
        cur := cur + Size(slices[i].value);
        i := i + 1;
      }
      assert slices[..i] == slices;
      raised := false;
    }

    /** The whole file, or the list of slice indices when data is not stored. */
    method CompleteData() returns (r: Outcome<Contents, Failure>)
      requires Valid()
      ensures r.Ok? <==> Pieces(slices, 0).Ok?
      ensures r.Ok? && storeData ==> r.value == File(Joined(Pieces(slices, 0).value))
      ensures r.Ok? && !storeData ==> r.value == Indices(MarkIndices(Pieces(slices, 0).value))
    {
      hide Good, Pieces, Joined, MarkIndices;
      var data: bytes, indices: seq<int> := [], [];
      var cur, i := 0, 0;
      assert slices[0..] == slices;
      ghost var all := Pieces(slices, 0);
      if all.Ok? { NothingTaken(all.value); }
      while i < |slices|
        invariant 0 <= i <= |slices|
        invariant Good(slices[i..], storeData)
        invariant all.Ok? <==> Pieces(slices[i..], cur).Ok?
        invariant all.Ok? && storeData ==> Joined(all.value) == data + Joined(Pieces(slices[i..], cur).value)
        invariant all.Ok? && !storeData ==> MarkIndices(all.value) == indices + MarkIndices(Pieces(slices[i..], cur).value)
      {
        ReadStep(slices, i, storeData, cur, data, indices);
        if slices[i].key.start != cur {
          return Raised(BadUnion);
        }
        var v := slices[i].value;
        if storeData {
          data := data + v.data;
        } else {
          indices := indices + (if v.Mark? then [v.index] else []);
        }
        cur := cur + Size(v);
        i := i + 1;
      }
      ReadEnd(slices[i..], cur, data, indices);
      r := Ok(if storeData then File(data) else Indices(indices));
    }
  }

  lemma NothingTaken(values: seq<Value>)
    ensures [] + Joined(values) == Joined(values) && [] + MarkIndices(values) == MarkIndices(values)
  {
  }

  lemma ReadEnd(rest: seq<Slice<Value>>, cur: int, data: bytes, indices: seq<int>)
    requires rest == []
    ensures Pieces(rest, cur).Ok? && data + Joined(Pieces(rest, cur).value) == data
    ensures indices + MarkIndices(Pieces(rest, cur).value) == indices
  {
  }

  lemma ReadStep(sl: seq<Slice<Value>>, i: nat, storeData: bool, cur: int, data: bytes, indices: seq<int>)
    requires i < |sl| && Good(sl[i..], storeData)
    ensures GoodSlice(sl[i], storeData) && Good(sl[i + 1..], storeData)
    ensures sl[i].key.start != cur ==> Pieces(sl[i..], cur).Raised?
    ensures sl[i].key.start == cur ==> (Pieces(sl[i..], cur).Ok? <==> Pieces(sl[i + 1..], cur + Size(sl[i].value)).Ok?)
    ensures Pieces(sl[i..], cur).Ok? ==>
      var v, now, next := sl[i].value, Pieces(sl[i..], cur).value, Pieces(sl[i + 1..], cur + Size(sl[i].value)).value;
      && data + Joined(now) == (if v.Raw? then data + v.data else data) + Joined(next)
      && indices + MarkIndices(now) == (if v.Mark? then indices + [v.index] else indices) + MarkIndices(next)
  {
    assert sl[i..][1..] == sl[i + 1..];
    if Pieces(sl[i..], cur).Ok? {
      var v, next := sl[i].value, Pieces(sl[i + 1..], cur + Size(sl[i].value)).value;
      assert ([v] + next)[1..] == next;
    }
  }

  lemma DropNothing<V>(st: Store<V>)
    ensures DropWhole(st, []) == st
  {
  }
}
