/** Sets of integer points kept as a sorted list of half-open intervals, edited in place.

    The specification part gives one recursive function per operation, and proves what each does to the
    set of covered points. The class `IntervalUnion` follows the bisect-and-scan loops of the source and
    is proved to compute those functions. Zero-length intervals are legal members of a list. */
module Intervals {
  import opened Common

  datatype Interval = Interval(start: int, end: int)

  function Min(a: int, b: int): int { if a <= b then a else b }

  function Max(a: int, b: int): int { if a >= b then a else b }

  // ----- the abstraction: covered points

  ghost function Range(a: int, b: int): (r: set<int>)
    ensures forall p :: p in r <==> a <= p < b
    decreases b - a
  {
    if a >= b then {} else Range(a, b - 1) + {b - 1}
  }

  ghost function Points(iv: seq<Interval>): set<int> {
    if iv == [] then {} else Range(iv[0].start, iv[0].end) + Points(iv[1..])
  }

  /** The number of points, as the source sums it. */
  function Filled(iv: seq<Interval>): int {
    if iv == [] then 0 else iv[0].end - iv[0].start + Filled(iv[1..])
  }

  ghost predicate StartsFrom(iv: seq<Interval>, bound: int) { iv != [] ==> bound <= iv[0].start }

  /** The representation invariant: closed intervals in order, no two of them touching. */
  ghost predicate Separated(iv: seq<Interval>) {
    iv != [] ==> iv[0].start <= iv[0].end && StartsFrom(iv[1..], iv[0].end + 1) && Separated(iv[1..])
  }

  ghost predicate NoEmpty(iv: seq<Interval>) {
    iv != [] ==> iv[0].start < iv[0].end && NoEmpty(iv[1..])
  }

  /** Separated, and without zero-length intervals: the unique list for a set of points. */
  ghost predicate Canonical(iv: seq<Interval>) { Separated(iv) && NoEmpty(iv) }

  /** The point `p` lies strictly inside one of the intervals. */
  ghost predicate Splits(iv: seq<Interval>, p: int) {
    iv != [] && (iv[0].start < p < iv[0].end || Splits(iv[1..], p))
  }

  // ----- specification of the four operations

  /** `add`: everything touching [s, e] is merged into one interval. */
  function Merge(iv: seq<Interval>, s: int, e: int): seq<Interval> {
    if iv == [] then [Interval(s, e)]
    else if iv[0].end < s then [iv[0]] + Merge(iv[1..], s, e)
    else if e < iv[0].start then [Interval(s, e)] + iv
    else Merge(iv[1..], Min(s, iv[0].start), Max(e, iv[0].end))
  }

  /** The intervals `add` merges away, which it returns. */
  function Absorbed(iv: seq<Interval>, s: int, e: int): seq<Interval> {
    if iv == [] then []
    else if iv[0].end < s then Absorbed(iv[1..], s, e)
    else if e < iv[0].start then []
    else [iv[0]] + Absorbed(iv[1..], Min(s, iv[0].start), Max(e, iv[0].end))
  }

  predicate Touches(x: Interval, s: int, e: int) { Max(x.start, s) <= Min(x.end, e) }

  /** What `delete` leaves of one interval. */
  function Leftover(x: Interval, s: int, e: int): seq<Interval> {
    if !Touches(x, s, e) then [x]
    else (if x.start < s then [Interval(x.start, s)] else []) + (if x.end > e then [Interval(e, x.end)] else [])
  }

  /** `delete` */
  function Cut(iv: seq<Interval>, s: int, e: int): seq<Interval> {
    if iv == [] then [] else Leftover(iv[0], s, e) + Cut(iv[1..], s, e)
  }

  /** What `intersect` takes of one interval. */
  function Clipped(x: Interval, s: int, e: int): seq<Interval> {
    if Touches(x, s, e) then [Interval(Max(x.start, s), Min(x.end, e))] else []
  }

  /** `intersect`, and the value `delete` returns */
  function Clip(iv: seq<Interval>, s: int, e: int): seq<Interval> {
    if iv == [] then [] else Clipped(iv[0], s, e) + Clip(iv[1..], s, e)
  }

  /** `intersect_difference`: the uncovered part of [a, b), skipping zero-length intervals. */
  function Holes(iv: seq<Interval>, a: int, b: int): seq<Interval> {
    if a >= b then []
    else if iv == [] then [Interval(a, b)]
    else if iv[0].end <= a || iv[0].start == iv[0].end then Holes(iv[1..], a, b)
    else if iv[0].start >= b then [Interval(a, b)]
    else (if a < iv[0].start then [Interval(a, iv[0].start)] else []) + Holes(iv[1..], iv[0].end, b)
  }

  // ----- points

  lemma {:induction false} PointsAt(iv: seq<Interval>, p: int)
    ensures p in Points(iv) <==> exists i :: 0 <= i < |iv| && iv[i].start <= p < iv[i].end
  {
    if iv != [] {
      PointsAt(iv[1..], p);
      if i :| 0 <= i < |iv[1..]| && iv[1..][i].start <= p < iv[1..][i].end {
        assert iv[i + 1] == iv[1..][i];
      }
      if i :| 0 <= i < |iv| && iv[i].start <= p < iv[i].end {
        if i > 0 { assert iv[1..][i - 1] == iv[i]; }
      }
    }
  }

  lemma {:induction false} PointsAppend(a: seq<Interval>, b: seq<Interval>)
    ensures Points(a + b) == Points(a) + Points(b)
  {
    if a == [] {
      assert a + b == b;
    } else {
      PointsAppend(a[1..], b);
      assert (a + b)[1..] == a[1..] + b;
    }
  }

  lemma PointsOne(s: int, e: int)
    ensures Points([Interval(s, e)]) == Range(s, e)
  {
    assert Points([Interval(s, e)][1..]) == {};
  }

  lemma {:induction false} RangeSize(a: int, b: int)
    requires a <= b
    ensures |Range(a, b)| == b - a
    decreases b - a
  {
    if a < b {
      RangeSize(a, b - 1);
      assert b - 1 !in Range(a, b - 1);
    }
  }

  lemma {:induction false} PointsFrom(iv: seq<Interval>, bound: int)
    requires Separated(iv) && StartsFrom(iv, bound)
    ensures forall p :: p in Points(iv) ==> bound <= p
  {
    if iv != [] {
      PointsFrom(iv[1..], bound);
    }
  }

  lemma {:induction false} SeparatedSuffix(iv: seq<Interval>, n: nat)
    requires Separated(iv) && n <= |iv|
    ensures Separated(iv[n..])
    ensures forall i :: 0 <= i < n ==> iv[i].start <= iv[i].end
    ensures n < |iv| ==> forall i :: 0 <= i < n ==> iv[i].end < iv[n].start
  {
    if n > 0 {
      var tail := iv[1..];
      SeparatedSuffix(tail, n - 1);
      assert tail[n - 1..] == iv[n..];
      assert forall i :: 0 < i < |iv| ==> iv[i] == tail[i - 1];
      if 1 < n < |iv| {
        assert iv[0].end < tail[0].start <= tail[0].end < tail[n - 1].start;
      }
    } else {
      assert iv[0..] == iv;
    }
  }

  /** `actual_filled` counts the covered points. */
  lemma {:induction false} FilledIsCardinality(iv: seq<Interval>)
    requires Separated(iv)
    ensures Filled(iv) == |Points(iv)|
  {
    if iv != [] {
      FilledIsCardinality(iv[1..]);
      RangeSize(iv[0].start, iv[0].end);
      PointsFrom(iv[1..], iv[0].end + 1);
      assert Range(iv[0].start, iv[0].end) !! Points(iv[1..]);
    }
  }

  lemma NothingCovered()
    ensures Points([]) == {} && Canonical([])
  {
  }

  lemma SeparatedTail(iv: seq<Interval>)
    requires Separated(iv) && iv != []
    ensures Separated(iv[1..])
  {
  }

  lemma SeparatedCons(x: Interval, rest: seq<Interval>)
    requires x.start <= x.end && Separated(rest) && StartsFrom(rest, x.end + 1)
    ensures Separated([x] + rest)
    ensures NoEmpty([x] + rest) <==> x.start < x.end && NoEmpty(rest)
  {
    assert ([x] + rest)[1..] == rest;
  }

  // ----- add

  lemma {:induction false} MergePoints(iv: seq<Interval>, s: int, e: int)
    requires Separated(iv) && s <= e
    ensures Points(Merge(iv, s, e)) == Points(iv) + Range(s, e)
  {
    PointsOne(s, e);
    if iv != [] {
      var x, tail := iv[0], iv[1..];
      if x.end < s {
        MergePoints(tail, s, e);
        PointsAppend([x], Merge(tail, s, e));
        PointsOne(x.start, x.end);
      } else if e < x.start {
        PointsAppend([Interval(s, e)], iv);
      } else {
        MergePoints(tail, Min(s, x.start), Max(e, x.end));
        assert Range(Min(s, x.start), Max(e, x.end)) == Range(s, e) + Range(x.start, x.end);
      }
    }
  }

  lemma {:induction false} MergeSeparated(iv: seq<Interval>, s: int, e: int)
    requires Separated(iv) && s <= e
    ensures Separated(Merge(iv, s, e))
    ensures StartsFrom(Merge(iv, s, e), if iv == [] then s else Min(s, iv[0].start))
    ensures NoEmpty(iv) && s < e ==> NoEmpty(Merge(iv, s, e))
  {
    if iv == [] {
      SeparatedCons(Interval(s, e), []);
      assert Merge(iv, s, e) == [Interval(s, e)] + [];
    } else {
      var x, tail := iv[0], iv[1..];
      if x.end < s {
        MergeSeparated(tail, s, e);
        SeparatedCons(x, Merge(tail, s, e));
      } else if e < x.start {
        SeparatedCons(Interval(s, e), iv);
      } else {
        MergeSeparated(tail, Min(s, x.start), Max(e, x.end));
      }
    }
  }

  /** Intervals that end before `s` are passed over. */
  lemma {:induction false} MergeSkip(iv: seq<Interval>, lo: nat, s: int, e: int)
    requires lo <= |iv| && forall i :: 0 <= i < lo ==> iv[i].end < s
    ensures Merge(iv, s, e) == iv[..lo] + Merge(iv[lo..], s, e)
    ensures Absorbed(iv, s, e) == Absorbed(iv[lo..], s, e)
  {
    if lo == 0 {
      assert iv[lo..] == iv;
    } else {
      MergeSkip(iv[1..], lo - 1, s, e);
      assert iv[1..][lo - 1..] == iv[lo..];
      assert iv[..lo] == [iv[0]] + iv[1..][..lo - 1];
    }
  }

  /** What `add` merges away and returns are the intervals that meet [s, e], touching included, in their order. */
  lemma {:induction false} AbsorbedAre(iv: seq<Interval>, s: int, e: int) returns (lo: nat, hi: nat)
    requires Separated(iv) && s <= e
    ensures lo <= hi <= |iv| && Absorbed(iv, s, e) == iv[lo..hi]
    ensures forall i :: 0 <= i < |iv| ==> (lo <= i < hi <==> iv[i].start <= e && s <= iv[i].end)
    decreases |iv|
  {
    if iv == [] {
      lo, hi := 0, 0;
    } else {
      var x, tail := iv[0], iv[1..];
      assert forall i :: 0 < i < |iv| ==> iv[i] == tail[i - 1];
      AfterFirst(iv);
      if x.end < s {
        lo, hi := AbsorbedAre(tail, s, e);
        lo, hi := lo + 1, hi + 1;
      } else if e < x.start {
        lo, hi := 0, 0;
      } else {
        var lo', hi' := AbsorbedAre(tail, Min(s, x.start), Max(e, x.end));
        if lo' < hi' {
          AfterFirst(tail);
          assert tail[0].start <= tail[lo'].start <= Max(e, x.end);
          assert lo' == 0;
        }
        lo, hi := 0, if lo' < hi' then hi' + 1 else 1;
        assert iv[0..hi] == [x] + tail[0..hi - 1];
      }
    }
  }

  lemma {:induction false} AfterFirst(iv: seq<Interval>)
    requires Separated(iv) && iv != []
    ensures forall i :: 0 < i < |iv| ==> iv[0].end < iv[i].start <= iv[i].end
    decreases |iv|
  {
    if |iv| > 1 {
      AfterFirst(iv[1..]);
      assert forall i :: 1 < i < |iv| ==> iv[i] == iv[1..][i - 1];
    }
  }

  lemma MergeAtEnd(iv: seq<Interval>, x: Interval)
    requires forall i :: 0 <= i < |iv| ==> iv[i].end < x.start
    ensures Merge(iv, x.start, x.end) == iv + [x]
  {
    MergeSkip(iv, |iv|, x.start, x.end);
    assert iv[|iv|..] == [] && iv[..|iv|] == iv;
  }

  // ----- delete

  lemma LeftoverPoints(x: Interval, s: int, e: int)
    requires x.start <= x.end && s <= e
    ensures Points(Leftover(x, s, e)) == Range(x.start, x.end) - Range(s, e)
  {
    var left := if x.start < s then [Interval(x.start, s)] else [];
    var right := if x.end > e then [Interval(e, x.end)] else [];
    PointsAppend(left, right);
    PointsOne(x.start, x.end);
    PointsOne(x.start, s);
    PointsOne(e, x.end);
  }

  lemma {:induction false} CutPoints(iv: seq<Interval>, s: int, e: int)
    requires Separated(iv) && s <= e
    ensures Points(Cut(iv, s, e)) == Points(iv) - Range(s, e)
  {
    if iv != [] {
      CutPoints(iv[1..], s, e);
      LeftoverPoints(iv[0], s, e);
      PointsAppend(Leftover(iv[0], s, e), Cut(iv[1..], s, e));
    }
  }

  /** `delete` keeps the intervals apart exactly when it does not cut one interval at a single point. */
  lemma {:induction false} CutSeparated(iv: seq<Interval>, s: int, e: int)
    requires Separated(iv) && s <= e
    ensures Separated(Cut(iv, s, e)) <==> s < e || !Splits(iv, s)
    ensures iv != [] ==> StartsFrom(Cut(iv, s, e), iv[0].start)
    ensures NoEmpty(iv) ==> NoEmpty(Cut(iv, s, e))
  {
    if iv != [] {
      var x, tail := iv[0], iv[1..];
      CutSeparated(tail, s, e);
      LeftoverThen(x, Cut(tail, s, e), s, e);
      if x.start < s < x.end && tail != [] { NoSplitBefore(tail, s); }
    }
  }

  lemma {:induction false} NoSplitBefore(iv: seq<Interval>, p: int)
    requires Separated(iv) && StartsFrom(iv, p)
    ensures !Splits(iv, p)
  {
    if iv != [] {
      NoSplitBefore(iv[1..], p);
    }
  }

  lemma LeftoverThen(x: Interval, rest: seq<Interval>, s: int, e: int)
    requires x.start <= x.end && s <= e && StartsFrom(rest, x.end + 1)
    ensures Separated(Leftover(x, s, e) + rest) <==> Separated(rest) && (s < e || !(x.start < s < x.end))
    ensures StartsFrom(Leftover(x, s, e) + rest, x.start)
    ensures NoEmpty(rest) && x.start < x.end ==> NoEmpty(Leftover(x, s, e) + rest)
  {
    var l, r := Interval(x.start, s), Interval(e, x.end);
    var all := Leftover(x, s, e) + rest;
    if !Touches(x, s, e) {
      assert all[1..] == rest;
    } else if x.start < s && x.end > e {
      assert all == [l] + ([r] + rest);
      assert all[1..] == [r] + rest && all[1..][1..] == rest;
    } else if x.start < s || x.end > e {
      assert all[1..] == rest;
    } else {
      assert all == rest;
    }
  }

  // ----- intersect

  lemma {:induction false} ClipPoints(iv: seq<Interval>, s: int, e: int)
    requires Separated(iv)
    ensures Points(Clip(iv, s, e)) == Points(iv) * Range(s, e)
  {
    if iv != [] {
      ClipPoints(iv[1..], s, e);
      PointsAppend(Clipped(iv[0], s, e), Clip(iv[1..], s, e));
      PointsOne(Max(iv[0].start, s), Min(iv[0].end, e));
    }
  }

  lemma {:induction false} ClipSeparated(iv: seq<Interval>, s: int, e: int)
    requires Separated(iv)
    ensures Separated(Clip(iv, s, e))
    ensures iv != [] ==> StartsFrom(Clip(iv, s, e), iv[0].start)
  {
    if iv != [] {
      ClipSeparated(iv[1..], s, e);
      var rest := Clip(iv[1..], s, e);
      if Touches(iv[0], s, e) {
        SeparatedCons(Interval(Max(iv[0].start, s), Min(iv[0].end, e)), rest);
      } else {
        assert [] + rest == rest;
      }
    }
  }

  /** Where nothing touches [s, e], there is nothing to clip and nothing to cut. */
  lemma {:induction false} ClipNothing(iv: seq<Interval>, s: int, e: int)
    requires forall i :: 0 <= i < |iv| ==> !Touches(iv[i], s, e)
    ensures Clip(iv, s, e) == [] && Cut(iv, s, e) == iv
  {
    if iv != [] {
      ClipNothing(iv[1..], s, e);
      assert iv == [iv[0]] + iv[1..];
    }
  }

  /** Intervals that end before `s` are passed over. */
  lemma {:induction false} CutSkip(iv: seq<Interval>, lo: nat, s: int, e: int)
    requires lo <= |iv| && forall i :: 0 <= i < lo ==> iv[i].end < s
    ensures Cut(iv, s, e) == iv[..lo] + Cut(iv[lo..], s, e)
    ensures Clip(iv, s, e) == Clip(iv[lo..], s, e)
  {
    hide Cut, Clip;
    if lo == 0 {
      assert iv[lo..] == iv;
      Units(Cut(iv, s, e));
    } else {
      PassOver(iv, s, e);
      CutSkip(iv[1..], lo - 1, s, e);
      assert iv[1..][lo - 1..] == iv[lo..];
      assert iv[..lo] == [iv[0]] + iv[1..][..lo - 1];
      Assoc([iv[0]], iv[1..][..lo - 1], Cut(iv[lo..], s, e));
    }
  }

  lemma PassOver(iv: seq<Interval>, s: int, e: int)
    requires iv != [] && iv[0].end < s
    ensures Cut(iv, s, e) == [iv[0]] + Cut(iv[1..], s, e) && Clip(iv, s, e) == Clip(iv[1..], s, e)
  {
    Units(Clip(iv[1..], s, e));
  }

  lemma {:induction false} StartsAllAfter(iv: seq<Interval>, bound: int)
    requires Separated(iv) && StartsFrom(iv, bound)
    ensures forall i :: 0 <= i < |iv| ==> bound <= iv[i].start
  {
    if iv != [] {
      StartsAllAfter(iv[1..], bound);
      assert forall i :: 0 < i < |iv| ==> iv[i] == iv[1..][i - 1];
    }
  }

  ghost predicate Increasing(iv: seq<Interval>) {
    forall j, k :: 0 <= j < k < |iv| ==> iv[j].start < iv[k].start
  }

  lemma {:induction false} CutIncreasing(iv: seq<Interval>, s: int, e: int)
    requires Separated(iv) && s <= e
    ensures Increasing(Cut(iv, s, e))
    ensures forall k :: 0 <= k < |Cut(iv, s, e)| ==> iv[0].start <= Cut(iv, s, e)[k].start
  {
    if iv != [] {
      var x, tail := iv[0], iv[1..];
      CutIncreasing(tail, s, e);
      var rest := Cut(tail, s, e);
      assert rest != [] ==> tail != [];
      hide Cut, Separated;
      IncreasingAppend(Leftover(x, s, e), rest, x);
    }
  }

  lemma IncreasingAppend(a: seq<Interval>, b: seq<Interval>, x: Interval)
    requires Increasing(a) && Increasing(b)
    requires forall i :: 0 <= i < |a| ==> x.start <= a[i].start <= x.end
    requires forall i :: 0 <= i < |b| ==> x.end < b[i].start
    ensures Increasing(a + b)
  {
  }

  // ----- intersect_difference

  lemma {:induction false} HolesSkip(iv: seq<Interval>, lo: nat, a: int, b: int)
    requires lo <= |iv| && forall i :: 0 <= i < lo ==> iv[i].end < a
    ensures Holes(iv, a, b) == Holes(iv[lo..], a, b)
  {
    if lo == 0 {
      assert iv[lo..] == iv;
    } else {
      HolesSkip(iv[1..], lo - 1, a, b);
      assert iv[1..][lo - 1..] == iv[lo..];
    }
  }

  /** Passing over the first interval. */
  lemma HoleStep(iv: seq<Interval>, cursor: int, end: int)
    requires Separated(iv) && iv != []
    ensures Range(cursor, end) - Points(iv)
         == Range(cursor, Min(iv[0].start, end)) + (Range(Max(cursor, iv[0].end), end) - Points(iv[1..]))
  {
    PointsFrom(iv, iv[0].start);
    PointsFrom(iv[1..], iv[0].end + 1);
  }

  lemma {:induction false} HolesPoints(iv: seq<Interval>, a: int, b: int)
    requires Separated(iv)
    ensures Points(Holes(iv, a, b)) == Range(a, b) - Points(iv)
    ensures Canonical(Holes(iv, a, b))
    ensures StartsFrom(Holes(iv, a, b), a)
  {
    hide Points, Separated, NoEmpty;
    NoPoints();
    if a < b && iv == [] {
      OneHole(a, b);
    } else if a < b {
      HeadAndTail(iv);
      var x, tail := iv[0], iv[1..];
      if x.end <= a || x.start == x.end {
        HolesPoints(tail, a, b);
      } else if x.start >= b {
        OneHole(a, b);
      } else {
        HolesPoints(tail, x.end, b);
        HoleThen(a, x.start, Holes(tail, x.end, b));
      }
    }
  }

  lemma NoPoints()
    ensures Points([]) == {} && Canonical([])
  {
  }

  lemma HeadAndTail(iv: seq<Interval>)
    requires Separated(iv) && iv != []
    ensures iv[0].start <= iv[0].end && Separated(iv[1..]) && StartsFrom(iv[1..], iv[0].end + 1)
    ensures Points(iv) == Range(iv[0].start, iv[0].end) + Points(iv[1..])
    ensures forall p :: p in Points(iv[1..]) ==> iv[0].end < p
  {
    PointsFrom(iv[1..], iv[0].end + 1);
  }

  lemma OneHole(a: int, b: int)
    requires a < b
    ensures Points([Interval(a, b)]) == Range(a, b) && Canonical([Interval(a, b)])
  {
    PointsOne(a, b);
    SeparatedCons(Interval(a, b), []);
    assert [Interval(a, b)] + [] == [Interval(a, b)];
  }

  lemma HoleThen(a: int, b: int, rest: seq<Interval>)
    requires Canonical(rest) && StartsFrom(rest, Max(a, b) + 1)
    ensures var all := (if a < b then [Interval(a, b)] else []) + rest;
      Points(all) == Range(a, b) + Points(rest) && Canonical(all) && StartsFrom(all, a)
  {
    if a < b {
      PointsOne(a, b);
      PointsAppend([Interval(a, b)], rest);
      SeparatedCons(Interval(a, b), rest);
    } else {
      assert [] + rest == rest;
    }
  }

  // ----- the list is a normal form

  lemma NextGap(iv: seq<Interval>)
    requires Canonical(iv) && iv != []
    ensures iv[0].end !in Points(iv)
    ensures Range(iv[0].start, iv[0].end) <= Points(iv)
    ensures Points(iv[1..]) == Points(iv) - Range(iv[0].start, iv[0].end)
    ensures forall p :: p in Points(iv) ==> iv[0].start <= p
    ensures iv[0].start in Points(iv)
  {
    PointsFrom(iv, iv[0].start);
    PointsFrom(iv[1..], iv[0].end + 1);
  }

  /** A set of points has one canonical list. */
  lemma {:induction false} CanonicalUnique(a: seq<Interval>, b: seq<Interval>)
    requires Canonical(a) && Canonical(b) && Points(a) == Points(b)
    ensures a == b
  {
    if a != [] { NextGap(a); }
    if b != [] { NextGap(b); }
    if a != [] && b != [] {
      assert a[0].start == b[0].start;
      assert a[0].end !in Range(b[0].start, b[0].end) && b[0].end !in Range(a[0].start, a[0].end);
      assert a[0] == b[0];
      CanonicalUnique(a[1..], b[1..]);
      assert a == [a[0]] + a[1..] && b == [b[0]] + b[1..];
    }
  }

  function AddAll(iv: seq<Interval>, adds: seq<Interval>): seq<Interval>
    decreases |adds|
  {
    if adds == [] then iv else AddAll(Merge(iv, adds[0].start, adds[0].end), adds[1..])
  }

  lemma {:induction false} AddAllPoints(iv: seq<Interval>, adds: seq<Interval>)
    requires Canonical(iv) && NoEmpty(adds)
    ensures Canonical(AddAll(iv, adds))
    ensures Points(AddAll(iv, adds)) == Points(iv) + Points(adds)
    decreases |adds|
  {
    if adds != [] {
      MergePoints(iv, adds[0].start, adds[0].end);
      MergeSeparated(iv, adds[0].start, adds[0].end);
      AddAllPoints(Merge(iv, adds[0].start, adds[0].end), adds[1..]);
    }
  }

  lemma SameMembersSamePoints(a: seq<Interval>, b: seq<Interval>)
    requires forall x :: x in a ==> x in b
    ensures Points(a) <= Points(b)
  {
    forall p | p in Points(a) ensures p in Points(b) {
      PointsAt(a, p);
      PointsAt(b, p);
      var i :| 0 <= i < |a| && a[i].start <= p < a[i].end;
      assert a[i] in b;
    }
  }

  /** Order and repetition of non-empty adds do not matter: the very same list results. */
  lemma AddOrderIrrelevant(adds: seq<Interval>, adds': seq<Interval>)
    requires NoEmpty(adds) && NoEmpty(adds')
    requires forall x :: x in adds <==> x in adds'
    ensures AddAll([], adds) == AddAll([], adds')
  {
    AddAllPoints([], adds);
    AddAllPoints([], adds');
    SameMembersSamePoints(adds, adds');
    SameMembersSamePoints(adds', adds);
    CanonicalUnique(AddAll([], adds), AddAll([], adds'));
  }

  // ----- the sorted list of the source

  /** `bisect_left((key,))`: the first position whose start is not below `key`. */
  function BisectLeft(iv: seq<Interval>, key: int): (lo: nat)
    ensures lo <= |iv|
    ensures forall i :: 0 <= i < lo ==> iv[i].start < key
    ensures lo < |iv| ==> key <= iv[lo].start
  {
    if iv == [] || key <= iv[0].start then 0 else 1 + BisectLeft(iv[1..], key)
  }

  predicate Before(x: Interval, y: Interval) {
    x.start < y.start || (x.start == y.start && x.end < y.end)
  }

  /** `SortedList.add`: after everything not greater. */
  function SortedAdd(iv: seq<Interval>, x: Interval): seq<Interval> {
    if iv == [] || Before(x, iv[0]) then [x] + iv else [iv[0]] + SortedAdd(iv[1..], x)
  }

  lemma {:induction false} SortedAddBetween(a: seq<Interval>, x: Interval, b: seq<Interval>)
    requires forall i :: 0 <= i < |a| ==> a[i].start < x.start
    requires b != [] ==> x.start < b[0].start
    ensures SortedAdd(a + b, x) == a + [x] + b
  {
    if a == [] {
      assert a + b == b;
    } else {
      SortedAddBetween(a[1..], x, b);
      assert (a + b)[1..] == a[1..] + b;
    }
  }

  lemma CutSpliced(all: seq<Interval>, lo: nat, hi: nat, left: seq<Interval>, s: int, e: int)
    requires Separated(all) && s <= e && lo <= hi <= |all|
    requires forall i :: 0 <= i < lo ==> all[i].end < s
    requires Cut(all[lo..], s, e) == left + all[hi..]
    requires hi == lo ==> left == []
    ensures Cut(all, s, e) == all[..lo] + left + all[hi..]
    ensures Increasing(all[..lo] + left + all[hi..])
    ensures Clip(all, s, e) == Clip(all[lo..], s, e)
    ensures hi == lo ==> Cut(all, s, e) == all
  {
    CutSkip(all, lo, s, e);
    Assoc(all[..lo], left, all[hi..]);
    CutIncreasing(all, s, e);
    if hi == lo { Unsplice(all, lo); }
  }

  lemma SuffixTail(all: seq<Interval>, i: nat)
    requires i < |all|
    ensures all[i..][0] == all[i] && all[i..][1..] == all[i + 1..]
  {
  }

  lemma ScanStep(cut: seq<Interval>, clip: seq<Interval>, left: seq<Interval>, taken: seq<Interval>,
                 rest: seq<Interval>, s: int, e: int)
    requires rest != [] && cut == left + Cut(rest, s, e) && clip == taken + Clip(rest, s, e)
    ensures cut == (left + Leftover(rest[0], s, e)) + Cut(rest[1..], s, e)
    ensures clip == (taken + Clipped(rest[0], s, e)) + Clip(rest[1..], s, e)
  {
    Assoc(left, Leftover(rest[0], s, e), Cut(rest[1..], s, e));
    Assoc(taken, Clipped(rest[0], s, e), Clip(rest[1..], s, e));
  }

  lemma AppendLeftover(a: seq<Interval>, x: Interval, s: int, e: int)
    requires Touches(x, s, e)
    ensures var b := if x.start < s then a + [Interval(x.start, s)] else a;
            a + Leftover(x, s, e) == if x.end > e then b + [Interval(e, x.end)] else b
  {
  }

  lemma Unsplice(all: seq<Interval>, lo: nat)
    requires lo <= |all|
    ensures all[..lo] + [] + all[lo..] == all
  {
  }

  ghost predicate StartsReach(iv: seq<Interval>, s: int) { iv != [] ==> s <= iv[0].end }

  /** Of the list `clip`, `taken` has been produced and the rest of the scan yields the remainder. */
  ghost predicate Taken(clip: seq<Interval>, taken: seq<Interval>, rest: seq<Interval>, s: int, e: int) {
    Separated(rest) && Separated(clip) && clip == taken + Clip(rest, s, e)
  }

  lemma TakeStart(rest: seq<Interval>, s: int, e: int)
    requires Separated(rest)
    ensures Taken(Clip(rest, s, e), [], rest, s, e)
  {
    ClipSeparated(rest, s, e);
    Units(Clip(rest, s, e));
  }

  lemma TakeStep(clip: seq<Interval>, taken: seq<Interval>, rest: seq<Interval>, s: int, e: int)
    requires Taken(clip, taken, rest, s, e) && rest != []
    ensures var y := Interval(Max(rest[0].start, s), Min(rest[0].end, e));
      if y.start <= y.end
      then Taken(clip, taken + [y], rest[1..], s, e) && forall i :: 0 <= i < |taken| ==> taken[i].end < y.start
      else Taken(clip, taken, rest[1..], s, e)
  {
    var y := Interval(Max(rest[0].start, s), Min(rest[0].end, e));
    var tail := Clip(rest[1..], s, e);
    if y.start <= y.end {
      Assoc(taken, [y], tail);
      NextInOrder(clip, taken, y, tail);
    } else {
      Units(tail);
    }
  }

  lemma TakeEnd(clip: seq<Interval>, taken: seq<Interval>, rest: seq<Interval>, s: int, e: int)
    requires Taken(clip, taken, rest, s, e) && StartsFrom(rest, e + 1)
    ensures taken == clip
  {
    StartsAllAfter(rest, e + 1);
    ClipNothing(rest, s, e);
    Units(taken);
  }

  lemma NextInOrder(iv: seq<Interval>, a: seq<Interval>, x: Interval, b: seq<Interval>)
    requires Separated(iv) && iv == a + ([x] + b)
    ensures forall i :: 0 <= i < |a| ==> a[i].end < x.start
  {
    SeparatedSuffix(iv, |a|);
    assert forall i :: 0 <= i < |a| ==> a[i] == iv[i];
  }

  /** The scan of `add`: `seen` has been merged into [ms, me), and `rest` is still to be looked at. */
  ghost predicate Merging(all: seq<Interval>, before: seq<Interval>, rest: seq<Interval>, seen: seq<Interval>,
                          ms: int, me: int, s: int, e: int)
  {
    && Separated(all) && Separated(rest) && s <= e && ms <= me && StartsReach(rest, ms)
    && (forall i :: 0 <= i < |before| ==> before[i].start < ms)
    && (rest != [] ==> forall i :: 0 <= i < |before| ==> before[i].start < rest[0].start)
    && Merge(all, s, e) == before + Merge(rest, ms, me)
    && Absorbed(all, s, e) == seen + Absorbed(rest, ms, me)
  }

  lemma MergeStart(all: seq<Interval>, lo: nat, s: int, e: int)
    requires Separated(all) && lo <= |all| && s <= e && StartsReach(all[lo..], s)
    requires forall i :: 0 <= i < lo ==> all[i].end < s
    ensures Merging(all, all[..lo], all[lo..], [], s, e, s, e)
  {
    hide Separated, Merge, Absorbed;
    SeparatedSuffix(all, lo);
    MergeSkip(all, lo, s, e);
    Units(Absorbed(all[lo..], s, e));
  }

  lemma MergeStep(all: seq<Interval>, before: seq<Interval>, rest: seq<Interval>, seen: seq<Interval>,
                  ms: int, me: int, s: int, e: int)
    requires Merging(all, before, rest, seen, ms, me, s, e) && rest != [] && rest[0].start <= me
    ensures Merging(all, before, rest[1..], seen + [rest[0]], Min(ms, rest[0].start), Max(me, rest[0].end), s, e)
  {
    Assoc(seen, [rest[0]], Absorbed(rest[1..], Min(ms, rest[0].start), Max(me, rest[0].end)));
  }

  lemma MergeEnd(all: seq<Interval>, before: seq<Interval>, rest: seq<Interval>, seen: seq<Interval>,
                 ms: int, me: int, s: int, e: int)
    requires Merging(all, before, rest, seen, ms, me, s, e) && StartsFrom(rest, me + 1)
    ensures SortedAdd(before + rest, Interval(ms, me)) == Merge(all, s, e)
    ensures seen == Absorbed(all, s, e)
    ensures Separated(Merge(all, s, e))
  {
    SortedAddBetween(before, Interval(ms, me), rest);
    Assoc(before, [Interval(ms, me)], rest);
    assert Merge(rest, ms, me) == [Interval(ms, me)] + rest;
    Units(seen);
    MergeSeparated(all, s, e);
  }

  class IntervalUnion {
    var intervals: seq<Interval>

    ghost predicate Valid()
      reads this
    {
      Separated(intervals)
    }

    constructor ()
      ensures Valid() && intervals == []
    {
      intervals := [];
    }

    /** The first interval that reaches `start`. */
    method FirstReaching(start: int) returns (lo: nat)
      requires Valid()
      ensures lo <= |intervals|
      ensures forall i :: 0 <= i < lo ==> intervals[i].end < start
      ensures lo < |intervals| ==> start <= intervals[lo].end
    {
      lo := BisectLeft(intervals, start);
      SeparatedSuffix(intervals, lo);
      if lo > 0 {
        SeparatedSuffix(intervals, lo - 1);
        if intervals[lo - 1].end >= start {
          lo := lo - 1;
        }
      }
    }

    method Add(start: int, end: int) returns (ok: bool, overlapping: seq<Interval>)
      requires Valid()
      modifies this
      ensures ok == (start <= end)
      ensures ok ==> Valid() && intervals == Merge(old(intervals), start, end)
      ensures ok ==> overlapping == Absorbed(old(intervals), start, end)
      ensures !ok ==> intervals == old(intervals)
    {
      if start > end {
        return false, [];
      }
      ok := true;
      hide Merge, Absorbed, Merging, SortedAdd;
      var lo := FirstReaching(start);
      var hi, mergedStart, mergedEnd := lo, start, end;
      overlapping := [];
      var items := intervals;
      MergeStart(items, lo, start, end);
      while hi < |items| && items[hi].start <= mergedEnd
        invariant lo <= hi <= |items|
        invariant Merging(old(intervals), items[..lo], items[hi..], overlapping, mergedStart, mergedEnd, start, end)
      {
        SuffixTail(items, hi);
        MergeStep(items, items[..lo], items[hi..], overlapping, mergedStart, mergedEnd, start, end);
        overlapping := overlapping + [items[hi]];
        mergedStart := Min(mergedStart, items[hi].start);
        mergedEnd := Max(mergedEnd, items[hi].end);
        hi := hi + 1;
      }
      MergeEnd(items, items[..lo], items[hi..], overlapping, mergedStart, mergedEnd, start, end);
      intervals := items[..lo] + items[hi..];
      intervals := SortedAdd(intervals, Interval(mergedStart, mergedEnd));
    }

    /** The scan of `delete`: what is left of the intervals touched, what is taken from them, and where they end. */
    method ScanCut(start: int, end: int, lo: nat) returns (hi: nat, toInsert: seq<Interval>, removed: seq<Interval>)
      requires Valid() && lo <= |intervals| && start <= end
      requires lo < |intervals| ==> start <= intervals[lo].end
      ensures lo <= hi <= |intervals|
      ensures Cut(intervals[lo..], start, end) == toInsert + intervals[hi..]
      ensures hi == lo ==> toInsert == []
      ensures removed == Clip(intervals[lo..], start, end)
    {
      hide Cut, Clip;
      hi, toInsert, removed := lo, [], [];
      SeparatedSuffix(intervals, lo);
      ghost var rest := intervals[lo..];
      ghost var cut, clip := Cut(rest, start, end), Clip(rest, start, end);
      Units(cut);
      Units(clip);
      while hi < |intervals| && intervals[hi].start <= end
        invariant lo <= hi <= |intervals| && rest == intervals[hi..]
        invariant Separated(rest) && StartsReach(rest, start)
        invariant cut == toInsert + Cut(rest, start, end)
        invariant clip == removed + Clip(rest, start, end)
        invariant hi == lo ==> toInsert == []
      {
        var x := intervals[hi];
        SuffixTail(intervals, hi);
        ScanStep(cut, clip, toInsert, removed, rest, start, end);
        ghost var before := toInsert;
        if x.start < start {
          toInsert := toInsert + [Interval(x.start, start)];
        }
        if x.end > end {
          toInsert := toInsert + [Interval(end, x.end)];
        }
        AppendLeftover(before, x, start, end);
        removed := removed + [Interval(Max(x.start, start), Min(x.end, end))];
        hi := hi + 1;
        rest := rest[1..];
      }
      StartsAllAfter(rest, end + 1);
      ClipNothing(rest, start, end);
      Units(removed);
    }

    /** `del intervals[lo:hi]`, then every fragment added to the sorted list. */
    method Replace(lo: nat, hi: nat, fragments: seq<Interval>)
      requires lo <= hi <= |intervals|
      requires Increasing(intervals[..lo] + fragments + intervals[hi..])
      modifies this
      ensures intervals == old(intervals[..lo]) + fragments + old(intervals[hi..])
    {
      ghost var a, b := intervals[..lo], intervals[hi..];
      intervals := intervals[..lo] + intervals[hi..];
      var k := 0;
      assert a + fragments[..0] + b == a + b;
      while k < |fragments|
        invariant 0 <= k <= |fragments|
        invariant intervals == a + fragments[..k] + b
      {
        ghost var all := a + fragments + b;
        ghost var before := a + fragments[..k];
        assert all[|a| + k] == fragments[k];
        assert forall i :: 0 <= i < |before| ==> all[i] == before[i];
        assert b != [] ==> all[|a| + |fragments|] == b[0];
        SortedAddBetween(before, fragments[k], b);
        assert before + [fragments[k]] == a + fragments[..k + 1];
        intervals := SortedAdd(intervals, fragments[k]);
        k := k + 1;
      }
      assert fragments[..k] == fragments;
    }

    method Delete(start: int, end: int) returns (ok: bool, removed: seq<Interval>)
      requires Valid()
      modifies this
      ensures ok == (start <= end)
      ensures ok ==> intervals == Cut(old(intervals), start, end)
      ensures ok ==> removed == Clip(old(intervals), start, end)
      ensures ok ==> (Valid() <==> start < end || !Splits(old(intervals), start))
      ensures !ok ==> intervals == old(intervals)
    {
      if start > end {
        return false, [];
      }
      ok := true;
      var lo := FirstReaching(start);
      var hi, toInsert;
      hi, toInsert, removed := ScanCut(start, end, lo);
      CutSpliced(intervals, lo, hi, toInsert, start, end);
      CutSeparated(intervals, start, end);
      if hi > lo {
        Replace(lo, hi, toInsert);
      }
    }

    method Intersect(start: int, end: int) returns (result: IntervalUnion)
      requires Valid()
      ensures fresh(result) && result.Valid()
      ensures result.intervals == Clip(intervals, start, end)
    {
      var lo := FirstReaching(start);
      CutSkip(intervals, lo, start, end);
      SeparatedSuffix(intervals, lo);
      result := ScanClip(start, end, lo);
    }

    method ScanClip(start: int, end: int, lo: nat) returns (result: IntervalUnion)
      requires lo <= |intervals| && Separated(intervals[lo..])
      ensures fresh(result) && result.Valid()
      ensures result.intervals == Clip(intervals[lo..], start, end)
    {
      hide Separated, Clip, Taken, Merge, Absorbed;
      var items := intervals;
      ghost var clip := Clip(items[lo..], start, end);
      TakeStart(items[lo..], start, end);
      result := new IntervalUnion();
      NothingCovered();
      var i := lo;
      while i < |items| && items[i].start <= end
        invariant lo <= i <= |items|
        invariant result.Valid() && fresh(result)
        invariant Taken(clip, result.intervals, items[i..], start, end)
      {
        SuffixTail(items, i);
        TakeStep(clip, result.intervals, items[i..], start, end);
        var clipped := Interval(Max(items[i].start, start), Min(items[i].end, end));
        if clipped.start <= clipped.end {
          MergeAtEnd(result.intervals, clipped);
          var _, _ := result.Add(clipped.start, clipped.end);
        }
        i := i + 1;
      }
      TakeEnd(clip, result.intervals, items[i..], start, end);
    }

    method IntersectDifference(start: int, end: int) returns (ok: bool, holes: IntervalUnion)
      requires Valid()
      ensures ok == (start <= end)
      ensures fresh(holes) && holes.Valid()
      ensures ok ==> holes.intervals == Holes(intervals, start, end)
    {
      if start > end {
        holes := new IntervalUnion();
        return false, holes;
      }
      ok := true;
      var lo := FirstReaching(start);
      SeparatedSuffix(intervals, lo);
      HolesSkip(intervals, lo, start, end);
      holes := ScanHoles(start, end, lo);
    }

    method ScanHoles(start: int, end: int, lo: nat) returns (holes: IntervalUnion)
      requires start <= end && lo <= |intervals| && Separated(intervals[lo..])
      ensures fresh(holes) && holes.Valid()
      ensures holes.intervals == Holes(intervals[lo..], start, end)
    {
      hide Separated, NoEmpty, Points, Holes, Merge, Absorbed;
      var items := intervals;
      ghost var result := Holes(items[lo..], start, end);
      HolesPoints(items[lo..], start, end);
      NothingCovered();
      holes := new IntervalUnion();
      var cursor, i := start, lo;
      while i < |items| && items[i].start <= end
        invariant lo <= i <= |items|
        invariant Separated(items[i..])
        invariant Canonical(holes.intervals) && fresh(holes)
        invariant Points(result) == Points(holes.intervals) + (Range(cursor, end) - Points(items[i..]))
      {
        var x := items[i];
        SuffixTail(items, i);
        HoleStep(items[i..], cursor, end);
        if x.start > cursor {
          MergePoints(holes.intervals, cursor, Min(x.start, end));
          MergeSeparated(holes.intervals, cursor, Min(x.start, end));
          var _, _ := holes.Add(cursor, Min(x.start, end));
        }
        cursor := Max(cursor, x.end);
        if cursor >= end {
          assert Range(cursor, end) == {};
          CanonicalUnique(holes.intervals, result);
          return;
        }
        SeparatedTail(items[i..]);
        i := i + 1;
      }
      if i < |items| { PointsFrom(items[i..], end + 1); } else { NothingCovered(); }
      if cursor < end {
        MergePoints(holes.intervals, cursor, end);
        MergeSeparated(holes.intervals, cursor, end);
        var _, _ := holes.Add(cursor, end);
      }
      CanonicalUnique(holes.intervals, result);
    }
  }
}
