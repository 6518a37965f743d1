/** Packets are joined into one stream, cut into numbered fragments of bounded size, and put together again from
    fragments that may arrive in any order. */
module Fragments {
  import opened Common

  datatype Fragment = Fragment(total: int, index: int, chunk: bytes)

  datatype FragmentError = NotGiven(index: int) | WrongTotal(given: int, expected: int)

  // ----- cutting

  function Chunks(data: bytes, size: nat): seq<bytes>
    requires size > 0
    decreases |data|
  {
    if data == [] then []
    else if |data| <= size then [data]
    else [data[..size]] + Chunks(data[size..], size)
  }

  function Numbered(chunks: seq<bytes>): seq<Fragment> {
    seq(|chunks|, i requires 0 <= i < |chunks| => Fragment(|chunks|, i, chunks[i]))
  }

  lemma ConcatCons(piece: bytes, rest: seq<bytes>)
    ensures Concat([piece] + rest) == piece + Concat(rest)
  {
    assert ([piece] + rest)[1..] == rest;
  }

  lemma {:induction false} ChunksConcat(data: bytes, size: nat)
    requires size > 0
    ensures Concat(Chunks(data, size)) == data
    decreases |data|
  {
    if |data| > size {
      ChunksConcat(data[size..], size);
      ConcatCons(data[..size], Chunks(data[size..], size));
      assert data[..size] + data[size..] == data;
    } else if data != [] {
      assert [data][1..] == [];
      assert data + [] == data;
    }
  }

  /** No chunk is empty, and only the last may be short. */
  lemma {:induction false} ChunkSizes(data: bytes, size: nat, i: nat)
    requires size > 0 && i < |Chunks(data, size)|
    ensures 0 < |Chunks(data, size)[i]| <= size
    ensures i + 1 < |Chunks(data, size)| ==> |Chunks(data, size)[i]| == size
    decreases |data|
  {
    if |data| > size && i > 0 {
      ChunkSizes(data[size..], size, i - 1);
    }
  }

  ghost predicate AllFull(chunks: seq<bytes>, size: nat) {
    forall i :: 0 <= i < |chunks| ==> |chunks[i]| == size
  }

  /** Full chunks taken off the front of a stream are the first chunks of the stream. */
  lemma {:induction false} FullFirst(chunks: seq<bytes>, rest: bytes, size: nat)
    requires size > 0 && AllFull(chunks, size) && rest != []
    ensures Chunks(Concat(chunks) + rest, size) == chunks + Chunks(rest, size)
  {
    if chunks == [] {
      Units(rest);
      Units(Chunks(rest, size));
    } else {
      var data := Concat(chunks) + rest;
      Assoc(chunks[0], Concat(chunks[1..]), rest);
      CutFirst(chunks[0], Concat(chunks[1..]) + rest);
      FullFirst(chunks[1..], rest, size);
      Assoc([chunks[0]], chunks[1..], Chunks(rest, size));
      HeadTail(chunks);
    }
  }

  lemma CutFirst(a: bytes, b: bytes)
    ensures (a + b)[..|a|] == a && (a + b)[|a|..] == b
  {
  }

  lemma HeadTail<T>(s: seq<T>)
    requires s != []
    ensures [s[0]] + s[1..] == s
  {
  }

  /** What the cutting loop keeps: the full chunks so far and the bytes not cut yet are the payloads taken in. */
  ghost predicate Cutting(chunks: seq<bytes>, current: bytes, taken: bytes, size: nat) {
    && AllFull(chunks, size)
    && Concat(chunks) + current == taken
    && (current == [] ==> chunks == [])
  }

  lemma CutOne(chunks: seq<bytes>, current: bytes, taken: bytes, size: nat)
    requires 0 < size < |current| && Cutting(chunks, current, taken, size)
    ensures Cutting(chunks + [current[..size]], current[size..], taken, size)
  {
    var cut := current[..size];
    ConcatAppend(chunks, [cut]);
    assert Concat([cut]) == cut + Concat([]);
    Units(cut);
    Assoc(Concat(chunks), cut, current[size..]);
    assert cut + current[size..] == current;
  }

  lemma TakeIn(chunks: seq<bytes>, current: bytes, taken: bytes, payload: bytes, size: nat)
    requires Cutting(chunks, current, taken, size)
    ensures Cutting(chunks, current + payload, taken + payload, size)
  {
    Assoc(Concat(chunks), current, payload);
  }

  lemma CutAll(chunks: seq<bytes>, current: bytes, taken: bytes, size: nat)
    requires |current| <= size && size > 0 && Cutting(chunks, current, taken, size)
    ensures Chunks(taken, size) == if current == [] then chunks else chunks + [current]
  {
    if current != [] { FullFirst(chunks, current, size); }
  }

  lemma ConcatNext(payloads: seq<bytes>, i: nat)
    requires i < |payloads|
    ensures Concat(payloads[..i + 1]) == Concat(payloads[..i]) + payloads[i]
  {
    assert payloads[..i + 1] == payloads[..i] + [payloads[i]];
    ConcatAppend(payloads[..i], [payloads[i]]);
    assert Concat([payloads[i]]) == payloads[i] + Concat([]);
    Units(payloads[i]);
  }

  method MergeAndFragment(payloads: seq<bytes>, maxSize: nat) returns (fragments: seq<Fragment>)
    requires maxSize > 0
    ensures fragments == Numbered(Chunks(Concat(payloads), maxSize))
  {
    var current: bytes, chunks: seq<bytes> := [], [];
    for i := 0 to |payloads|
      invariant |current| <= maxSize && Cutting(chunks, current, Concat(payloads[..i]), maxSize)
    {
      TakeIn(chunks, current, Concat(payloads[..i]), payloads[i], maxSize);
      ConcatNext(payloads, i);
      current := current + payloads[i];
      while |current| > maxSize
        invariant Cutting(chunks, current, Concat(payloads[..i + 1]), maxSize)
      {
        CutOne(chunks, current, Concat(payloads[..i + 1]), maxSize);
        chunks := chunks + [current[..maxSize]];
        current := current[maxSize..];
      }
    }
    assert payloads[..|payloads|] == payloads;
    CutAll(chunks, current, Concat(payloads), maxSize);
    if current != [] {
      chunks := chunks + [current];
    }
    fragments := Numbered(chunks);
  }

  // ----- putting together

  /** The dictionary of fragments by index: a later fragment replaces an earlier one of the same index. */
  function ByIndex(fragments: seq<Fragment>): map<int, Fragment> {
    if fragments == [] then map[]
    else
      var last := fragments[|fragments| - 1];
      ByIndex(fragments[..|fragments| - 1])[last.index := last]
  }

  /** The chunks from index `k` on, or the first reason against them. */
  function JoinFrom(perIndex: map<int, Fragment>, n: nat, k: nat): Outcome<bytes, FragmentError>
    requires k <= n
    decreases n - k
  {
    if k == n then Ok([])
    else if k !in perIndex then Raised(NotGiven(k))
    else if perIndex[k].total != n then Raised(WrongTotal(perIndex[k].total, n))
    else
      var rest := JoinFrom(perIndex, n, k + 1);
      if rest.Raised? then rest else Ok(perIndex[k].chunk + rest.value)
  }

  function Reassembled(fragments: seq<Fragment>): Outcome<bytes, FragmentError> {
    JoinFrom(ByIndex(fragments), |fragments|, 0)
  }

  method Reassemble(fragments: seq<Fragment>) returns (r: Outcome<bytes, FragmentError>)
    ensures r == Reassembled(fragments)
  {
    if fragments == [] { return Ok([]); }
    var n := |fragments|;
    var perIndex: map<int, Fragment> := map[];
    for i := 0 to n
      invariant perIndex == ByIndex(fragments[..i])
    {
      assert fragments[..i + 1][..i] == fragments[..i];
      perIndex := perIndex[fragments[i].index := fragments[i]];
    }
    assert fragments[..n] == fragments;
    var data: bytes := [];
    PrependNothing(JoinFrom(perIndex, n, 0));
    for k := 0 to n
      invariant Reassembled(fragments) == Prepend(data, JoinFrom(perIndex, n, k))
    {
      if k !in perIndex { return Raised(NotGiven(k)); }
      if perIndex[k].total != n { return Raised(WrongTotal(perIndex[k].total, n)); }
      PrependNext(data, perIndex, n, k);
      data := data + perIndex[k].chunk;
    }
    Units(data);
    return Ok(data);
  }

  function Prepend(data: bytes, r: Outcome<bytes, FragmentError>): Outcome<bytes, FragmentError> {
    if r.Raised? then r else Ok(data + r.value)
  }

  lemma PrependNothing(r: Outcome<bytes, FragmentError>)
    ensures Prepend([], r) == r
  {
    if r.Ok? { Units(r.value); }
  }

  lemma PrependNext(data: bytes, perIndex: map<int, Fragment>, n: nat, k: nat)
    requires k < n && k in perIndex && perIndex[k].total == n
    ensures Prepend(data, JoinFrom(perIndex, n, k)) == Prepend(data + perIndex[k].chunk, JoinFrom(perIndex, n, k + 1))
  {
    var rest := JoinFrom(perIndex, n, k + 1);
    if rest.Ok? { Assoc(data, perIndex[k].chunk, rest.value); }
  }

  // ----- any order

  lemma {:induction false} ByIndexHolds(fragments: seq<Fragment>)
    ensures forall k :: k in ByIndex(fragments) ==> ByIndex(fragments)[k] in fragments && ByIndex(fragments)[k].index == k
    ensures forall f :: f in fragments ==> f.index in ByIndex(fragments)
  {
    if fragments != [] {
      var front, last := fragments[..|fragments| - 1], fragments[|fragments| - 1];
      ByIndexHolds(front);
      assert fragments == front + [last];
    }
  }

  lemma {:induction false} JoinChunks(perIndex: map<int, Fragment>, chunks: seq<bytes>, k: nat)
    requires k <= |chunks|
    requires forall i :: 0 <= i < |chunks| ==> i in perIndex && perIndex[i] == Fragment(|chunks|, i, chunks[i])
    ensures JoinFrom(perIndex, |chunks|, k) == Ok(Concat(chunks[k..]))
    decreases |chunks| - k
  {
    if k < |chunks| {
      JoinChunks(perIndex, chunks, k + 1);
      assert chunks[k..][1..] == chunks[k + 1..];
    }
  }

  lemma InSame(a: seq<Fragment>, b: seq<Fragment>, f: Fragment)
    requires multiset(a) == multiset(b)
    ensures f in a <==> f in b
  {
    assert f in multiset(a) <==> f in multiset(b);
  }

  /** The fragments of any packets, delivered in any order, give back the bytes of the packets. */
  lemma AnyOrder(payloads: seq<bytes>, size: nat, arrived: seq<Fragment>)
    requires size > 0
    requires multiset(arrived) == multiset(Numbered(Chunks(Concat(payloads), size)))
    ensures Reassembled(arrived) == Ok(Concat(payloads))
  {
    var chunks := Chunks(Concat(payloads), size);
    var sent, perIndex := Numbered(chunks), ByIndex(arrived);
    assert |arrived| == |multiset(arrived)| == |multiset(sent)| == |sent|;
    ByIndexHolds(arrived);
    forall i | 0 <= i < |chunks| ensures i in perIndex && perIndex[i] == Fragment(|chunks|, i, chunks[i]) {
      InSame(arrived, sent, sent[i]);
      assert sent[i] in sent;
      InSame(arrived, sent, perIndex[i]);
    }
    JoinChunks(perIndex, chunks, 0);
    assert chunks[0..] == chunks;
    ChunksConcat(Concat(payloads), size);
  }

  // ----- what is accepted

  function Indices(fragments: seq<Fragment>): (s: seq<int>)
    ensures |s| == |fragments| && forall i :: 0 <= i < |s| ==> s[i] == fragments[i].index
  {
    seq(|fragments|, i requires 0 <= i < |fragments| => fragments[i].index)
  }

  function Range(n: nat): (s: seq<int>)
    ensures |s| == n && forall i :: 0 <= i < n ==> s[i] == i
  {
    seq(n, i => i)
  }

  lemma {:induction false} RangeOnce(n: nat, v: int)
    ensures multiset(Range(n))[v] == if 0 <= v < n then 1 else 0
  {
    if n == 0 {
      assert Range(0) == [];
    } else {
      RangeOnce(n - 1, v);
      assert Range(n) == Range(n - 1) + [n - 1];
    }
  }

  /** As many numbers as places, and every place taken: the numbers are the places in some order. */
  lemma AllPlacesTaken(s: seq<int>)
    requires forall k :: 0 <= k < |s| ==> k in s
    ensures multiset(s) == multiset(Range(|s|))
  {
    var a, b := multiset(Range(|s|)), multiset(s);
    forall v ensures a[v] <= b[v] {
      RangeOnce(|s|, v);
      if 0 <= v < |s| { assert v in s && v in b; }
    }
    assert a <= b && |b - a| == |b| - |a| == 0;
    assert b == a + (b - a);
  }

  lemma {:induction false} JoinOkNeeds(perIndex: map<int, Fragment>, n: nat, k: nat, i: nat)
    requires k <= i < n && JoinFrom(perIndex, n, k).Ok?
    ensures i in perIndex && perIndex[i].total == n
    decreases n - k
  {
    if k < i { JoinOkNeeds(perIndex, n, k + 1, i); }
  }

  lemma {:induction false} JoinOkIf(perIndex: map<int, Fragment>, n: nat, k: nat)
    requires k <= n && forall i :: k <= i < n ==> i in perIndex && perIndex[i].total == n
    ensures JoinFrom(perIndex, n, k).Ok?
    decreases n - k
  {
    if k < n { JoinOkIf(perIndex, n, k + 1); }
  }

  /** The first reason there is: no fragment has index `k`, or the last one that has it states another total, and the
      fragments of all indices before are there with the right one. */
  lemma {:induction false} FirstReason(perIndex: map<int, Fragment>, n: nat, k: nat)
    requires k <= n && JoinFrom(perIndex, n, k).Raised?
    ensures match JoinFrom(perIndex, n, k).error
      case NotGiven(i) => k <= i < n && i !in perIndex && AllRight(perIndex, n, k, i)
      case WrongTotal(given, expected) =>
        expected == n && given != n && FirstWrong(perIndex, n, k, given)
    decreases n - k
  {
    if k in perIndex && perIndex[k].total == n {
      FirstReason(perIndex, n, k + 1);
      match JoinFrom(perIndex, n, k + 1).error {
        case NotGiven(i) => assert AllRight(perIndex, n, k, i);
        case WrongTotal(given, _) =>
          var i :| k + 1 <= i < n && i in perIndex && perIndex[i].total == given && AllRight(perIndex, n, k + 1, i);
          assert AllRight(perIndex, n, k, i);
      }
    } else if k in perIndex {
      assert AllRight(perIndex, n, k, k);
    }
  }

  ghost predicate FirstWrong(perIndex: map<int, Fragment>, n: nat, from: int, given: int) {
    exists i :: from <= i < n && i in perIndex && perIndex[i].total == given && AllRight(perIndex, n, from, i)
  }

  ghost predicate AllRight(perIndex: map<int, Fragment>, n: nat, from: int, to: int) {
    forall i :: from <= i < to ==> i in perIndex && perIndex[i].total == n
  }

  /** Of fragments with one index the last given counts. */
  lemma {:induction false} LastCounts(fragments: seq<Fragment>, i: nat)
    requires i < |fragments| && forall j :: i < j < |fragments| ==> fragments[j].index != fragments[i].index
    ensures fragments[i].index in ByIndex(fragments) && ByIndex(fragments)[fragments[i].index] == fragments[i]
    decreases |fragments|
  {
    if i < |fragments| - 1 {
      var front := fragments[..|fragments| - 1];
      assert forall j :: 0 <= j < |front| ==> front[j] == fragments[j];
      LastCounts(front, i);
    }
  }

  /** Why fragments are not put together: the first index that none of them has, or whose last fragment states a total
      other than their number. */
  lemma RefusedExactly(fragments: seq<Fragment>)
    requires Reassembled(fragments).Raised?
    ensures var n, perIndex := |fragments|, ByIndex(fragments);
      match Reassembled(fragments).error
      case NotGiven(i) => 0 <= i < n && (forall f :: f in fragments ==> f.index != i) && AllRight(perIndex, n, 0, i)
      case WrongTotal(given, expected) =>
        expected == n && given != n && FirstWrong(perIndex, n, 0, given)
  {
    hide ByIndex, JoinFrom, AllRight, FirstWrong;
    FirstReason(ByIndex(fragments), |fragments|, 0);
    if Reassembled(fragments).error.NotGiven? { NoneHasIndex(fragments, Reassembled(fragments).error.index); }
  }

  lemma NoneHasIndex(fragments: seq<Fragment>, i: int)
    requires i !in ByIndex(fragments)
    ensures forall f :: f in fragments ==> f.index != i
  {
    ByIndexHolds(fragments);
  }

  /** Fragments are accepted exactly when their indices are 0 to n - 1, each once, and each states the total n. */
  lemma AcceptedExactly(fragments: seq<Fragment>)
    ensures Reassembled(fragments).Ok? <==>
            (&& multiset(Indices(fragments)) == multiset(Range(|fragments|))
             && forall f :: f in fragments ==> f.total == |fragments|)
  {
    var n, perIndex, indices := |fragments|, ByIndex(fragments), Indices(fragments);
    ByIndexHolds(fragments);
    if Reassembled(fragments).Ok? {
      forall k | 0 <= k < n ensures k in indices && perIndex[k].total == n {
        JoinOkNeeds(perIndex, n, 0, k);
        var i :| 0 <= i < n && fragments[i] == perIndex[k];
        assert indices[i] == k;
      }
      AllPlacesTaken(indices);
      forall f | f in fragments ensures f.total == n {
        OneOfEach(fragments, f);
      }
    }
    if multiset(indices) == multiset(Range(n)) && forall f :: f in fragments ==> f.total == n {
      forall k | 0 <= k < n ensures k in perIndex {
        assert Range(n)[k] == k && k in multiset(indices);
        var i :| 0 <= i < n && indices[i] == k;
        assert fragments[i] in fragments;
      }
      JoinOkIf(perIndex, n, 0);
    }
  }

  /** When every index occurs once, the dictionary holds every fragment. */
  lemma OneOfEach(fragments: seq<Fragment>, f: Fragment)
    requires multiset(Indices(fragments)) == multiset(Range(|fragments|)) && f in fragments
    ensures 0 <= f.index < |fragments| && f.index in ByIndex(fragments) && ByIndex(fragments)[f.index] == f
  {
    var indices, perIndex := Indices(fragments), ByIndex(fragments);
    ByIndexHolds(fragments);
    var i :| 0 <= i < |fragments| && fragments[i] == f;
    var j :| 0 <= j < |fragments| && fragments[j] == perIndex[f.index];
    assert indices[i] in multiset(indices);
    RangeOnce(|fragments|, f.index);
    if i != j { TwiceIn(indices, i, j); }
  }

  lemma TwiceIn(s: seq<int>, i: nat, j: nat)
    requires i < |s| && j < |s| && i != j && s[i] == s[j]
    ensures multiset(s)[s[i]] >= 2
  {
    var a, b := if i < j then i else j, if i < j then j else i;
    assert s == s[..b] + s[b..];
    assert s[a] == s[..b][a] && s[b] == s[b..][0];
    assert s[i] in s[..b] && s[i] in s[b..];
  }
}
