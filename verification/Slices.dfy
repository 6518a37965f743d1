/** The slice index that accompanies an interval list: a sorted dictionary from intervals to values.

    The dictionary is a list of (key, value) pairs in key order. Its keys are meant to tile exactly the
    points the interval list covers. The value type is a parameter: bytes, marks or row numbers. */
module Slices {
  import opened Common
  import opened Intervals

  datatype Slice<+V> = Slice(key: Interval, value: V)

  /** An interval list together with its slice index. */
  datatype Store<+V> = Store(intervals: seq<Interval>, slices: seq<Slice<V>>)

  // ----- the sorted dictionary

  predicate HasKey<V>(sl: seq<Slice<V>>, k: Interval) {
    sl != [] && (sl[0].key == k || HasKey(sl[1..], k))
  }

  /** `del d[k]` */
  function Without<V>(sl: seq<Slice<V>>, k: Interval): seq<Slice<V>> {
    if sl == [] then [] else if sl[0].key == k then sl[1..] else [sl[0]] + Without(sl[1..], k)
  }

  /** `d[k] = v` */
  function With<V>(sl: seq<Slice<V>>, k: Interval, v: V): seq<Slice<V>> {
    if sl == [] || Before(k, sl[0].key) then [Slice(k, v)] + sl
    else if sl[0].key == k then [Slice(k, v)] + sl[1..]
    else [sl[0]] + With(sl[1..], k, v)
  }

  function WithAll<V>(sl: seq<Slice<V>>, keys: seq<Interval>, values: seq<V>): seq<Slice<V>>
    requires |keys| == |values|
    decreases |keys|
  {
    if keys == [] then sl else WithAll(With(sl, keys[0], values[0]), keys[1..], values[1..])
  }

  // ----- what the keys cover

  ghost function Covered<V>(sl: seq<Slice<V>>): set<int> {
    if sl == [] then {} else Range(sl[0].key.start, sl[0].key.end) + Covered(sl[1..])
  }

  ghost predicate KeysFrom<V>(sl: seq<Slice<V>>, bound: int) { sl != [] ==> bound <= sl[0].key.start }

  /** Non-empty keys, in order, none overlapping another. */
  ghost predicate Tiled<V>(sl: seq<Slice<V>>) {
    sl != [] ==> sl[0].key.start < sl[0].key.end && KeysFrom(sl[1..], sl[0].key.end) && Tiled(sl[1..])
  }

  /** The representation invariant of a store: slices and intervals describe the same points. */
  ghost predicate Consistent<V>(st: Store<V>) {
    Separated(st.intervals) && Tiled(st.slices) && Covered(st.slices) == Points(st.intervals)
  }

  /** The slice that holds point `p`. */
  ghost function SliceAt<V>(sl: seq<Slice<V>>, p: int): Option<Slice<V>> {
    if sl == [] then None
    else if sl[0].key.start <= p < sl[0].key.end then Some(sl[0])
    else SliceAt(sl[1..], p)
  }

  lemma {:induction false} SliceAtCovered<V>(sl: seq<Slice<V>>, p: int)
    ensures SliceAt(sl, p).Some? <==> p in Covered(sl)
    ensures SliceAt(sl, p).Some? ==> SliceAt(sl, p).value.key.start <= p < SliceAt(sl, p).value.key.end
    ensures SliceAt(sl, p).Some? ==> SliceAt(sl, p).value in sl
  {
    if sl != [] { SliceAtCovered(sl[1..], p); }
  }

  lemma {:induction false} CoveredFrom<V>(sl: seq<Slice<V>>, bound: int)
    requires Tiled(sl) && KeysFrom(sl, bound)
    ensures forall p :: p in Covered(sl) ==> bound <= p
  {
    if sl != [] { CoveredFrom(sl[1..], bound); }
  }

  lemma TiledCons<V>(x: Slice<V>, rest: seq<Slice<V>>)
    requires x.key.start < x.key.end && Tiled(rest) && KeysFrom(rest, x.key.end)
    ensures Tiled([x] + rest)
    ensures Covered([x] + rest) == Range(x.key.start, x.key.end) + Covered(rest)
    ensures forall p :: SliceAt([x] + rest, p) == if x.key.start <= p < x.key.end then Some(x) else SliceAt(rest, p)
  {
    assert ([x] + rest)[1..] == rest;
  }

  // ----- deleting one key

  lemma {:induction false} WithoutTiled<V>(sl: seq<Slice<V>>, k: Interval)
    requires Tiled(sl) && HasKey(sl, k)
    ensures k.start < k.end
    ensures Tiled(Without(sl, k))
    ensures forall b :: KeysFrom(sl, b) ==> KeysFrom(Without(sl, k), b)
    ensures Covered(Without(sl, k)) == Covered(sl) - Range(k.start, k.end)
    ensures Range(k.start, k.end) <= Covered(sl)
    ensures forall p :: SliceAt(Without(sl, k), p) == if k.start <= p < k.end then None else SliceAt(sl, p)
    ensures forall p :: k.start <= p < k.end ==> SliceAt(sl, p).Some? && SliceAt(sl, p).value.key == k
  {
    var x, tail := sl[0], sl[1..];
    CoveredFrom(tail, x.key.end);
    if x.key == k {
      forall p ensures SliceAt(tail, p).Some? ==> x.key.end <= p { SliceAtCovered(tail, p); }
    } else {
      WithoutTiled(tail, k);
      assert k.start in Covered(tail) && x.key.end <= k.start;
      TiledCons(x, Without(tail, k));
    }
  }

  // ----- adding one key over uncovered points

  lemma {:induction false} WithTiled<V>(sl: seq<Slice<V>>, k: Interval, v: V)
    requires Tiled(sl) && k.start < k.end && Range(k.start, k.end) !! Covered(sl)
    ensures Tiled(With(sl, k, v))
    ensures forall b :: KeysFrom(sl, b) && b <= k.start ==> KeysFrom(With(sl, k, v), b)
    ensures Covered(With(sl, k, v)) == Covered(sl) + Range(k.start, k.end)
    ensures forall p :: SliceAt(With(sl, k, v), p) == if k.start <= p < k.end then Some(Slice(k, v)) else SliceAt(sl, p)
  {
    assert k.start in Range(k.start, k.end) && k.end - 1 in Range(k.start, k.end);
    if sl == [] {
      TiledCons(Slice(k, v), sl);
    } else {
      var x, tail := sl[0], sl[1..];
      assert x.key.start in Covered(sl);
      if Before(k, x.key) {
        TiledCons(Slice(k, v), sl);
      } else {
        assert x.key.end - 1 in Covered(sl);
        assert x.key.end <= k.start;
        WithTiled(tail, k, v);
        TiledCons(x, With(tail, k, v));
      }
    }
  }

  /** The position of the key that holds `p`. */
  ghost function KeyIndex(keys: seq<Interval>, p: int): (i: nat)
    ensures i <= |keys|
    ensures i < |keys| ==> keys[i].start <= p < keys[i].end
  {
    if keys == [] || keys[0].start <= p < keys[0].end then 0 else 1 + KeyIndex(keys[1..], p)
  }

  lemma {:induction false} KeyIndexFound(keys: seq<Interval>, p: int)
    ensures KeyIndex(keys, p) < |keys| <==> p in Points(keys)
  {
    if keys != [] { KeyIndexFound(keys[1..], p); }
  }

  /** The slice at `p` once `keys` have been added. */
  ghost function Added<V>(keys: seq<Interval>, values: seq<V>, p: int, before: Option<Slice<V>>): Option<Slice<V>>
    requires |keys| == |values|
  {
    var i := KeyIndex(keys, p);
    if i < |keys| then Some(Slice(keys[i], values[i])) else before
  }

  lemma {:induction false} WithAllTiled<V>(sl: seq<Slice<V>>, keys: seq<Interval>, values: seq<V>)
    requires |keys| == |values| && Tiled(sl) && Canonical(keys) && Points(keys) !! Covered(sl)
    ensures Tiled(WithAll(sl, keys, values))
    ensures Covered(WithAll(sl, keys, values)) == Covered(sl) + Points(keys)
    ensures forall p :: SliceAt(WithAll(sl, keys, values), p) == Added(keys, values, p, SliceAt(sl, p))
    decreases |keys|
  {
    if keys != [] {
      var k, rest := keys[0], keys[1..];
      hide Covered, Tiled, With, SliceAt;
      PointsFrom(rest, k.end + 1);
      WithTiled(sl, k, values[0]);
      WithAllTiled(With(sl, k, values[0]), rest, values[1..]);
      forall p ensures Added(rest, values[1..], p, SliceAt(With(sl, k, values[0]), p)) == Added(keys, values, p, SliceAt(sl, p)) {
        KeyIndexFound(rest, p);
      }
    }
  }

  // ----- one upload over [a, b)

  /** Slices that `inter` contains as a whole are dropped, from the index and from the intervals. */
  function DropWhole<V>(st: Store<V>, inter: seq<Interval>): Store<V>
    decreases |inter|
  {
    if inter == [] then st
    else if HasKey(st.slices, inter[0]) then
      DropWhole(DropOne(st, inter[0]), inter[1..])
    else DropWhole(st, inter[1..])
  }

  /** The (negative) number of bytes `DropWhole` gives up. */
  function DropGrowth<V>(sl: seq<Slice<V>>, inter: seq<Interval>): int
    decreases |inter|
  {
    if inter == [] then 0
    else if HasKey(sl, inter[0]) then
      inter[0].start - inter[0].end + DropGrowth(Without(sl, inter[0]), inter[1..])
    else DropGrowth(sl, inter[1..])
  }

  function Cleared<V>(st: Store<V>, a: int, b: int): Store<V> {
    DropWhole(st, Clip(st.intervals, a, b))
  }

  /** The keys an upload over [a, b) adds. */
  function NewKeys<V>(st: Store<V>, a: int, b: int): seq<Interval> {
    Holes(Cleared(st, a, b).intervals, a, b)
  }

  function Upload<V>(st: Store<V>, a: int, b: int, values: seq<V>): Store<V>
    requires |values| == |NewKeys(st, a, b)|
  {
    var c := Cleared(st, a, b);
    Store(Merge(c.intervals, a, b), WithAll(c.slices, NewKeys(st, a, b), values))
  }

  function Growth<V>(st: Store<V>, a: int, b: int): int {
    Filled(NewKeys(st, a, b)) + DropGrowth(st.slices, Clip(st.intervals, a, b))
  }

  ghost predicate Within(iv: seq<Interval>, a: int, b: int) {
    forall i :: 0 <= i < |iv| ==> a <= iv[i].start <= iv[i].end <= b
  }

  lemma {:induction false} ClipWithin(iv: seq<Interval>, a: int, b: int)
    ensures Within(Clip(iv, a, b), a, b)
  {
    if iv != [] { ClipWithin(iv[1..], a, b); }
  }

  lemma {:induction false} HolesWithin(iv: seq<Interval>, a: int, b: int)
    requires Separated(iv)
    ensures Within(Holes(iv, a, b), a, b)
  {
    HolesPoints(iv, a, b);
    forall i | 0 <= i < |Holes(iv, a, b)| ensures a <= Holes(iv, a, b)[i].start <= Holes(iv, a, b)[i].end <= b {
      var h := Holes(iv, a, b)[i];
      CanonicalNonEmpty(Holes(iv, a, b), i);
      PointsAt(Holes(iv, a, b), h.start);
      PointsAt(Holes(iv, a, b), h.end - 1);
    }
  }

  lemma {:induction false} CanonicalNonEmpty(iv: seq<Interval>, i: nat)
    requires NoEmpty(iv) && i < |iv|
    ensures iv[i].start < iv[i].end
  {
    if i > 0 { CanonicalNonEmpty(iv[1..], i - 1); }
  }

  lemma DisjointSize(a: set<int>, b: set<int>)
    requires a !! b
    ensures |a + b| == |a| + |b|
  {
  }

  function DropOne<V>(st: Store<V>, k: Interval): Store<V> {
    Store(Cut(st.intervals, k.start, k.end), Without(st.slices, k))
  }

  lemma DropOneConsistent<V>(st: Store<V>, k: Interval)
    requires Consistent(st) && HasKey(st.slices, k)
    ensures Consistent(DropOne(st, k))
    ensures k.start < k.end && Points(st.intervals) == Points(DropOne(st, k).intervals) + Range(k.start, k.end)
    ensures |Points(st.intervals)| == |Points(DropOne(st, k).intervals)| + k.end - k.start
  {
    hide Points, Separated, Tiled, Covered, Without, Cut, HasKey, SliceAt, NoEmpty;
    WithoutTiled(st.slices, k);
    CutPoints(st.intervals, k.start, k.end);
    CutSeparated(st.intervals, k.start, k.end);
    RangeSize(k.start, k.end);
    DisjointSize(Points(DropOne(st, k).intervals), Range(k.start, k.end));
    assert Points(st.intervals) == Points(DropOne(st, k).intervals) + Range(k.start, k.end);
  }

  lemma DropOneIs<V>(st: Store<V>, k: Interval)
    ensures DropOne(st, k).slices == Without(st.slices, k)
  {
  }

  /** Dropping keeps the store consistent, loses nothing outside [a, b), and reports the loss. */
  lemma {:induction false} DropWholeConsistent<V>(st: Store<V>, inter: seq<Interval>, a: int, b: int)
    requires Consistent(st) && Within(inter, a, b)
    ensures Consistent(DropWhole(st, inter))
    ensures |Points(DropWhole(st, inter).intervals)| == |Points(st.intervals)| + DropGrowth(st.slices, inter)
    ensures Points(DropWhole(st, inter).intervals) <= Points(st.intervals)
    ensures Points(st.intervals) <= Points(DropWhole(st, inter).intervals) + Range(a, b)
    decreases |inter|
  {
    hide Consistent, DropOne, HasKey, Points;
    if inter != [] {
      var k := inter[0];
      if HasKey(st.slices, k) {
        DropOneConsistent(st, k);
        DropWholeConsistent(DropOne(st, k), inter[1..], a, b);
        assert Range(k.start, k.end) <= Range(a, b);
        DropOneIs(st, k);
      } else {
        DropWholeConsistent(st, inter[1..], a, b);
      }
    }
  }

  lemma {:induction false} DropWholeKeeps<V>(st: Store<V>, inter: seq<Interval>, p: int)
    requires Consistent(st)
    ensures SliceAt(DropWhole(st, inter).slices, p) == Kept(st.slices, inter, p)
    decreases |inter|
  {
    if inter != [] {
      var k, rest := inter[0], inter[1..];
      if HasKey(st.slices, k) {
        KeptWithout(st, k, rest, p);
        hide Consistent, SliceAt, Kept, HasKey, Without, Cut;
        DropWholeKeeps(DropOne(st, k), rest, p);
      } else {
        DropWholeKeeps(st, rest, p);
        SliceAtCovered(st.slices, p);
        if SliceAt(st.slices, p).Some? { MemberHasKey(st.slices, SliceAt(st.slices, p).value); }
      }
    }
  }

  lemma KeptWithout<V>(st: Store<V>, k: Interval, rest: seq<Interval>, p: int)
    requires Consistent(st) && HasKey(st.slices, k)
    ensures Consistent(DropOne(st, k))
    ensures Kept(DropOne(st, k).slices, rest, p) == Kept(st.slices, [k] + rest, p)
  {
    hide SliceAt, Tiled, Covered, Without, Cut, Separated, Points, HasKey;
    DropOneConsistent(st, k);
    WithoutTiled(st.slices, k);
    SliceAtCovered(st.slices, p);
  }

  /** The slice at `p`, unless its key is one of the whole intervals dropped. */
  ghost function Kept<V>(sl: seq<Slice<V>>, inter: seq<Interval>, p: int): Option<Slice<V>> {
    if SliceAt(sl, p).Some? && SliceAt(sl, p).value.key in inter then None else SliceAt(sl, p)
  }

  lemma KeptIs<V>(sl: seq<Slice<V>>, inter: seq<Interval>, p: int)
    ensures Kept(sl, inter, p).Some? ==> Kept(sl, inter, p) == SliceAt(sl, p)
  {
  }

  lemma {:induction false} MemberHasKey<V>(sl: seq<Slice<V>>, x: Slice<V>)
    requires x in sl
    ensures HasKey(sl, x.key)
  {
    if sl[0] != x { MemberHasKey(sl[1..], x); }
  }

  /** What the dropping step leaves, and the holes that are then filled. */
  lemma ClearedConsistent<V>(st: Store<V>, a: int, b: int)
    requires Consistent(st) && a <= b
    ensures Consistent(Cleared(st, a, b)) && Canonical(NewKeys(st, a, b)) && Within(NewKeys(st, a, b), a, b)
    ensures Points(NewKeys(st, a, b)) == Range(a, b) - Points(Cleared(st, a, b).intervals)
    ensures Points(st.intervals) + Range(a, b) == Points(Cleared(st, a, b).intervals) + Points(NewKeys(st, a, b))
    ensures Points(Cleared(st, a, b).intervals) + Range(a, b) == Points(st.intervals) + Range(a, b)
    ensures |Points(Cleared(st, a, b).intervals)|
         == |Points(st.intervals)| + DropGrowth(st.slices, Clip(st.intervals, a, b))
  {
    hide Points, Separated, NoEmpty, Tiled, Covered, Clip, Holes, DropWhole, DropGrowth;
    ClipWithin(st.intervals, a, b);
    DropWholeConsistent(st, Clip(st.intervals, a, b), a, b);
    HolesPoints(Cleared(st, a, b).intervals, a, b);
    HolesWithin(Cleared(st, a, b).intervals, a, b);
  }

  /** An upload keeps slices and intervals in agreement and covers exactly [a, b) in addition. */
  lemma UploadConsistent<V>(st: Store<V>, a: int, b: int, values: seq<V>)
    requires Consistent(st) && a <= b && |values| == |NewKeys(st, a, b)|
    ensures Consistent(Upload(st, a, b, values))
    ensures Points(Upload(st, a, b, values).intervals) == Points(st.intervals) + Range(a, b)
  {
    hide Points, Separated, NoEmpty, Tiled, Covered, Clip, Holes, DropWhole, DropGrowth, SliceAt, WithAll, Merge;
    ClearedConsistent(st, a, b);
    var c := Cleared(st, a, b);
    WithAllTiled(c.slices, NewKeys(st, a, b), values);
    MergePoints(c.intervals, a, b);
    MergeSeparated(c.intervals, a, b);
  }

  /** The value reported is the exact number of points gained. */
  lemma UploadGrowth<V>(st: Store<V>, a: int, b: int, values: seq<V>)
    requires Consistent(st) && a <= b && |values| == |NewKeys(st, a, b)|
    ensures Growth(st, a, b) == |Points(Upload(st, a, b, values).intervals)| - |Points(st.intervals)|
    ensures Growth(st, a, b) == Filled(Upload(st, a, b, values).intervals) - Filled(st.intervals)
  {
    hide Points, Separated, Clip, Holes, Merge, Filled;
    UploadConsistent(st, a, b, values);
    ClearedConsistent(st, a, b);
    FilledIsCardinality(NewKeys(st, a, b));
    FilledIsCardinality(st.intervals);
    FilledIsCardinality(Upload(st, a, b, values).intervals);
    DisjointSize(Points(Cleared(st, a, b).intervals), Points(NewKeys(st, a, b)));
  }

  /** Which slice holds `p` after an upload: the old one unless it was dropped as a whole, else a new one. */
  lemma UploadSliceAt<V>(st: Store<V>, a: int, b: int, values: seq<V>, p: int)
    requires Consistent(st) && a <= b && |values| == |NewKeys(st, a, b)|
    ensures var keys := NewKeys(st, a, b);
      var kept := Kept(st.slices, Clip(st.intervals, a, b), p);
      var now := SliceAt(Upload(st, a, b, values).slices, p);
      && (kept.Some? ==> now == kept)
      && (kept.None? && a <= p < b ==>
            var i := KeyIndex(keys, p); i < |keys| && now == Some(Slice(keys[i], values[i])))
      && (kept.None? && !(a <= p < b) ==> now.None? && SliceAt(st.slices, p).None?)
  {
    hide Points, Separated, NoEmpty, Tiled, Covered, Clip, Holes, DropWhole, DropGrowth, SliceAt, WithAll, Merge;
    var c := Cleared(st, a, b);
    var keys := NewKeys(st, a, b);
    ClearedConsistent(st, a, b);
    WithAllTiled(c.slices, keys, values);
    DropWholeKeeps(st, Clip(st.intervals, a, b), p);
    KeyIndexFound(keys, p);
    SliceAtCovered(c.slices, p);
    SliceAtCovered(st.slices, p);
  }

  // ----- the values do not influence the bookkeeping

  ghost predicate SameKeys<V, W>(a: seq<Slice<V>>, b: seq<Slice<W>>) {
    if a == [] || b == [] then a == [] && b == []
    else a[0].key == b[0].key && SameKeys(a[1..], b[1..])
  }

  ghost predicate SameBooks<V, W>(s: Store<V>, t: Store<W>) {
    s.intervals == t.intervals && SameKeys(s.slices, t.slices)
  }

  lemma SameKeysCons<V, W>(x: Slice<V>, y: Slice<W>, a: seq<Slice<V>>, b: seq<Slice<W>>)
    requires x.key == y.key && SameKeys(a, b)
    ensures SameKeys([x] + a, [y] + b)
  {
    assert ([x] + a)[1..] == a && ([y] + b)[1..] == b;
  }

  lemma {:induction false} SameKeysWithout<V, W>(a: seq<Slice<V>>, b: seq<Slice<W>>, k: Interval)
    requires SameKeys(a, b)
    ensures HasKey(a, k) == HasKey(b, k) && SameKeys(Without(a, k), Without(b, k))
  {
    if a != [] {
      SameKeysWithout(a[1..], b[1..], k);
      if a[0].key != k { SameKeysCons(a[0], b[0], Without(a[1..], k), Without(b[1..], k)); }
    }
  }

  lemma {:induction false} SameKeysWith<V, W>(a: seq<Slice<V>>, b: seq<Slice<W>>, k: Interval, v: V, w: W)
    requires SameKeys(a, b)
    ensures SameKeys(With(a, k, v), With(b, k, w))
  {
    if a == [] || Before(k, a[0].key) {
      SameKeysCons(Slice(k, v), Slice(k, w), a, b);
    } else if a[0].key == k {
      SameKeysCons(Slice(k, v), Slice(k, w), a[1..], b[1..]);
    } else {
      SameKeysWith(a[1..], b[1..], k, v, w);
      SameKeysCons(a[0], b[0], With(a[1..], k, v), With(b[1..], k, w));
    }
  }

  lemma {:induction false} SameKeysWithAll<V, W>(a: seq<Slice<V>>, b: seq<Slice<W>>, keys: seq<Interval>, v: seq<V>, w: seq<W>)
    requires SameKeys(a, b) && |keys| == |v| == |w|
    ensures SameKeys(WithAll(a, keys, v), WithAll(b, keys, w))
    decreases |keys|
  {
    if keys != [] {
      SameKeysWith(a, b, keys[0], v[0], w[0]);
      SameKeysWithAll(With(a, keys[0], v[0]), With(b, keys[0], w[0]), keys[1..], v[1..], w[1..]);
    }
  }

  lemma {:induction false} SameBooksDrop<V, W>(s: Store<V>, t: Store<W>, inter: seq<Interval>)
    requires SameBooks(s, t)
    ensures SameBooks(DropWhole(s, inter), DropWhole(t, inter))
    ensures DropGrowth(s.slices, inter) == DropGrowth(t.slices, inter)
    decreases |inter|
  {
    if inter != [] {
      SameKeysWithout(s.slices, t.slices, inter[0]);
      if HasKey(s.slices, inter[0]) {
        SameBooksDrop(DropOne(s, inter[0]), DropOne(t, inter[0]), inter[1..]);
      } else {
        SameBooksDrop(s, t, inter[1..]);
      }
    }
  }

  /** Stores with the same keys accept the same new keys, report the same growth and keep the same keys. */
  lemma SameBooksUpload<V, W>(s: Store<V>, t: Store<W>, a: int, b: int, v: seq<V>, w: seq<W>)
    requires SameBooks(s, t) && |v| == |NewKeys(s, a, b)| && |w| == |NewKeys(t, a, b)|
    ensures NewKeys(s, a, b) == NewKeys(t, a, b) && Growth(s, a, b) == Growth(t, a, b)
    ensures SameBooks(Upload(s, a, b, v), Upload(t, a, b, w))
  {
    SameBooksDrop(s, t, Clip(s.intervals, a, b));
    SameKeysWithAll(Cleared(s, a, b).slices, Cleared(t, a, b).slices, NewKeys(s, a, b), v, w);
  }

  // ----- the loops of an upload

  /** The dropping loop: `updated` counts what is gone, `rest` is still to be looked at. */
  ghost predicate Dropping<V>(from: Store<V>, inter: seq<Interval>, st: Store<V>, rest: seq<Interval>, updated: int) {
    && Consistent(st)
    && DropWhole(st, rest) == DropWhole(from, inter)
    && updated + DropGrowth(st.slices, rest) == DropGrowth(from.slices, inter)
  }

  lemma DroppingStep<V>(from: Store<V>, inter: seq<Interval>, st: Store<V>, rest: seq<Interval>, updated: int)
    requires Dropping(from, inter, st, rest, updated) && rest != []
    ensures HasKey(st.slices, rest[0]) ==>
      && rest[0].start < rest[0].end
      && Dropping(from, inter, DropOne(st, rest[0]), rest[1..], updated + rest[0].start - rest[0].end)
    ensures !HasKey(st.slices, rest[0]) ==> Dropping(from, inter, st, rest[1..], updated)
  {
    if HasKey(st.slices, rest[0]) { DropOneConsistent(st, rest[0]); }
  }

  lemma {:induction false} ClipEmpty(iv: seq<Interval>, a: int, b: int)
    requires a > b
    ensures Clip(iv, a, b) == []
  {
    if iv != [] { ClipEmpty(iv[1..], a, b); }
  }
}
