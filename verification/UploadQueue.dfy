/** The queue of uploads waiting for local cache space: smallest first, admitted while they fit. */
module UploadQueue {
  import opened Common
  import opened MapSums

  datatype Item = Item(size: int, locator: int)

  datatype Status = Queued | Sending | Failed | Done

  /** What is known of one upload; `signalled`: its waiter has been woken. */
  datatype Info = Info(size: int, status: Status, signalled: bool)

  datatype Queue = Queue(
    total: int, taken: int, queued: seq<Item>, inProgress: set<Item>, succeeded: set<int>, failed: set<int>,
    info: map<int, Info>)

  predicate Before(x: Item, y: Item) { x.size < y.size || (x.size == y.size && x.locator < y.locator) }

  /** Insertion into the sorted set. */
  function Insert(q: seq<Item>, x: Item): seq<Item> {
    if q == [] || Before(x, q[0]) then [x] + q
    else if q[0] == x then q
    else [q[0]] + Insert(q[1..], x)
  }

  predicate CanHost(q: Queue, size: int) { q.taken + size < q.total }

  /** Move the front of the queue into progress. */
  function AdmitOne(q: Queue): Queue
    requires q.queued != []
  {
    var x := q.queued[0];
    q.(taken := q.taken + x.size, queued := q.queued[1..], inProgress := q.inProgress + {x},
       info := if x.locator in q.info then q.info[x.locator := q.info[x.locator].(status := Sending, signalled := true)] else q.info)
  }

  /** Admit from the front for as long as the front fits. */
  function Resolve(q: Queue): Queue
    decreases |q.queued|
  {
    if q.queued == [] || !CanHost(q, q.queued[0].size) then q else Resolve(AdmitOne(q))
  }

  datatype QueueError = AlreadyQueued | KeyError

  function QueueIntent(q: Queue, locator: int, size: int): (Queue, Outcome<(), QueueError>) {
    if locator in q.info then (q, Raised(AlreadyQueued))
    else (Resolve(q.(queued := Insert(q.queued, Item(size, locator)), info := q.info[locator := Info(size, Queued, false)])), Ok(()))
  }

  /** The end of an upload, well or badly. The status is set before the upload is looked up among those in
      progress, so it changes even if that look-up fails. */
  function Finish(q: Queue, locator: int, good: bool): (Queue, Outcome<(), QueueError>) {
    if locator !in q.info then (q, Raised(KeyError))
    else
      var i := q.info[locator];
      var x := Item(i.size, locator);
      var q' := q.(info := q.info[locator := i.(status := if good then Done else Failed)]);
      if x !in q.inProgress then (q', Raised(KeyError))
      else
        (Resolve(q'.(inProgress := q'.inProgress - {x}, taken := q'.taken - x.size,
                     succeeded := if good then q'.succeeded + {locator} else q'.succeeded,
                     failed := if good then q'.failed else q'.failed + {locator})), Ok(()))
  }

  function Start(total: int): Queue { Queue(total, 0, [], {}, {}, {}, map[]) }

  // ----- invariants

  ghost function Sizes(items: set<Item>): map<Item, int> { map x | x in items :: x.size }

  ghost function Space(items: set<Item>): int { Total(Sizes(items)) }

  ghost predicate Sorted(q: seq<Item>) {
    q != [] ==> (forall y :: y in q[1..] ==> Before(q[0], y)) && Sorted(q[1..])
  }

  /** Each known upload is in exactly one place, and its record agrees with that place. */
  ghost predicate Placed(q: Queue, n: int) {
    && (n in q.info ==>
          var i := q.info[n];
          var x := Item(i.size, n);
          && (i.status.Queued? <==> x in q.queued) && (i.status.Sending? <==> x in q.inProgress)
          && (i.status.Done? <==> n in q.succeeded) && (i.status.Failed? <==> n in q.failed)
          && (i.signalled <==> !i.status.Queued?))
    && (n !in q.info ==> n !in q.succeeded && n !in q.failed)
  }

  ghost predicate Known(q: Queue, x: Item) { x.locator in q.info && q.info[x.locator].size == x.size }

  ghost predicate Books(q: Queue) {
    && Sorted(q.queued)
    && (forall n :: Placed(q, n))
    && (forall x :: x in q.queued || x in q.inProgress ==> Known(q, x))
    && q.taken == Space(q.inProgress)
  }

  /** Nothing that waits would fit. */
  ghost predicate Tight(q: Queue) { forall x :: x in q.queued ==> !CanHost(q, x.size) }

  ghost predicate QueueOk(q: Queue) { Books(q) && Tight(q) }

  lemma {:induction false} InsertKeeps(q: seq<Item>, x: Item)
    requires Sorted(q)
    ensures Sorted(Insert(q, x)) && forall y :: y in Insert(q, x) <==> y in q || y == x
  {
    if q == [] || Before(x, q[0]) {
      assert ([x] + q)[1..] == q;
      if q != [] { assert q == [q[0]] + q[1..]; }
    } else if q[0] != x {
      InsertKeeps(q[1..], x);
      var rest := Insert(q[1..], x);
      assert ([q[0]] + rest)[1..] == rest;
      assert q == [q[0]] + q[1..];
    }
  }

  lemma HeadFirst(q: seq<Item>)
    requires Sorted(q) && q != []
    ensures q[0] !in q[1..] && Sorted(q[1..])
    ensures forall y :: y in q ==> y == q[0] || (y in q[1..] && q[0].size <= y.size)
  {
    assert q == [q[0]] + q[1..];
  }

  lemma SpacePut(items: set<Item>, x: Item)
    ensures x !in items ==> Space(items + {x}) == Space(items) + x.size
    ensures x in items ==> Space(items - {x}) == Space(items) - x.size
  {
    assert Sizes(items + {x}) == Sizes(items)[x := x.size];
    TotalPut(Sizes(items), x, x.size);
    assert Sizes(items - {x}) == Sizes(items) - {x};
    if x in items { TotalPick(Sizes(items), x); }
  }

  lemma SpaceEmpty(items: set<Item>)
    requires items == {}
    ensures Space(items) == 0
  {
    assert Sizes(items) == map[];
  }

  lemma AdmitKeeps(q: Queue)
    requires Books(q) && q.queued != [] && CanHost(q, q.queued[0].size)
    ensures Books(AdmitOne(q))
  {
    var x, t := q.queued[0], AdmitOne(q);
    HeadFirst(q.queued);
    assert x in q.queued && Known(q, x) && Placed(q, x.locator);
    SpacePut(q.inProgress, x);
    forall n ensures Placed(t, n) { assert Placed(q, n); }
    forall y | y in t.queued || y in t.inProgress ensures Known(t, y) { assert Known(q, y); }
  }

  lemma {:induction false} ResolveKeeps(q: Queue)
    requires Books(q)
    ensures QueueOk(Resolve(q))
    decreases |q.queued|
  {
    if q.queued == [] {
    } else if CanHost(q, q.queued[0].size) {
      AdmitKeeps(q);
      ResolveKeeps(AdmitOne(q));
    } else {
      HeadFirst(q.queued);
    }
  }

  /** A new upload joins the queue; the invariant holds again after the queue has been resolved. */
  lemma IntentKeeps(q: Queue, locator: int, size: int)
    requires QueueOk(q)
    ensures QueueOk(QueueIntent(q, locator, size).0)
  {
    if locator !in q.info {
      var x := Item(size, locator);
      var t := q.(queued := Insert(q.queued, x), info := q.info[locator := Info(size, Queued, false)]);
      InsertKeeps(q.queued, x);
      forall y | y in q.queued || y in q.inProgress ensures y.locator != locator { assert Known(q, y); }
      forall n ensures Placed(t, n) { assert Placed(q, n); }
      ResolveKeeps(t);
    }
  }

  /** The calls that a caller may make: for an upload in progress, or one that is not known, or one whose status
      already is the one to be set. */
  predicate MayFinish(q: Queue, locator: int, good: bool) {
    locator in q.info ==> q.info[locator].status == Sending || q.info[locator].status == if good then Done else Failed
  }

  lemma FinishKeeps(q: Queue, locator: int, good: bool)
    requires QueueOk(q) && MayFinish(q, locator, good)
    ensures QueueOk(Finish(q, locator, good).0)
  {
    if locator in q.info {
      var i := q.info[locator];
      var x := Item(i.size, locator);
      assert Placed(q, locator);
      if i.status == Sending {
        var t := q.(info := q.info[locator := i.(status := if good then Done else Failed)], inProgress := q.inProgress - {x},
                    taken := q.taken - x.size, succeeded := if good then q.succeeded + {locator} else q.succeeded,
                    failed := if good then q.failed else q.failed + {locator});
        SpacePut(q.inProgress, x);
        forall n ensures Placed(t, n) { assert Placed(q, n); }
        ResolveKeeps(t);
      } else {
        assert q.info[locator := i.(status := if good then Done else Failed)] == q.info;
      }
    }
  }

  /** Reporting the end of an upload keeps the queue consistent exactly for those calls: for one still waiting, or
      one that ended the other way, the record no longer agrees with the place. */
  lemma FinishKeepsExactly(q: Queue, locator: int, good: bool)
    requires QueueOk(q)
    ensures QueueOk(Finish(q, locator, good).0) <==> MayFinish(q, locator, good)
  {
    if MayFinish(q, locator, good) {
      FinishKeeps(q, locator, good);
    } else {
      var t := Finish(q, locator, good).0;
      assert Placed(q, locator);
      assert !Placed(t, locator);
    }
  }

  /** An upload reported as failed while it still waits is marked failed and stays in the queue. */
  lemma FailureWhileWaiting()
    ensures var q := QueueIntent(QueueIntent(Start(10), 1, 5).0, 2, 8).0;
      var t := Finish(q, 2, false);
      && QueueOk(q) && q.queued == [Item(8, 2)] && q.inProgress == {Item(5, 1)}
      && t.1 == Raised(KeyError) && t.0.queued == [Item(8, 2)] && t.0.info[2].status == Failed && !QueueOk(t.0)
  {
    var x, y := Item(5, 1), Item(8, 2);
    var a0 := Start(10).(queued := Insert([], x), info := map[1 := Info(5, Queued, false)]);
    assert Insert([], x) == [x] && Insert([], y) == [y] && [x][1..] == [];
    var a := QueueIntent(Start(10), 1, 5).0;
    assert a == Resolve(a0) == Resolve(AdmitOne(a0)) == AdmitOne(a0);
    assert a.inProgress == {x} && a.taken == 5;
    var q := QueueIntent(a, 2, 8).0;
    assert q.queued == [y];
    StartOk(10);
    IntentKeeps(Start(10), 1, 5);
    IntentKeeps(a, 2, 8);
    FinishKeepsExactly(q, 2, false);
  }

  // ----- runs

  datatype Op = OpIntent(locator: int, size: int) | OpFinish(locator: int, good: bool)

  function Step(q: Queue, op: Op): Queue {
    match op
    case OpIntent(n, size) => QueueIntent(q, n, size).0
    case OpFinish(n, good) => Finish(q, n, good).0
  }

  function RunQueue(q: Queue, ops: seq<Op>): Queue
    decreases |ops|
  {
    if ops == [] then q else RunQueue(Step(q, ops[0]), ops[1..])
  }

  predicate Proper(q: Queue, ops: seq<Op>)
    decreases |ops|
  {
    ops == [] || ((ops[0].OpFinish? ==> MayFinish(q, ops[0].locator, ops[0].good)) && Proper(Step(q, ops[0]), ops[1..]))
  }

  /** In every run of proper calls each upload is in exactly one place, the space taken is that of the uploads in
      progress, and nothing that waits would fit. */
  lemma {:induction false} RunKeeps(q: Queue, ops: seq<Op>)
    requires QueueOk(q) && Proper(q, ops)
    ensures QueueOk(RunQueue(q, ops))
    decreases |ops|
  {
    if ops != [] {
      match ops[0] {
        case OpIntent(n, size) => IntentKeeps(q, n, size);
        case OpFinish(n, good) => FinishKeeps(q, n, good);
      }
      RunKeeps(Step(q, ops[0]), ops[1..]);
    }
  }

  lemma StartOk(total: int)
    ensures QueueOk(Start(total))
  {
    SpaceEmpty({});
  }

  // ----- below the total

  /** The space taken is below the total. */
  ghost predicate Below(q: Queue) { q.inProgress != {} ==> q.taken < q.total }

  /** The end of an upload of negative size leaves others in progress that take the total or more. */
  predicate Overfills(q: Queue, op: Op) {
    && op.OpFinish? && op.locator in q.info
    && var x := Item(q.info[op.locator].size, op.locator);
      x in q.inProgress && q.inProgress != {x} && q.taken - x.size >= q.total
  }

  lemma {:induction false} ResolveBelow(q: Queue)
    requires Below(q)
    ensures Below(Resolve(q))
    decreases |q.queued|
  {
    if q.queued != [] && CanHost(q, q.queued[0].size) { ResolveBelow(AdmitOne(q)); }
  }

  lemma StepBelow(q: Queue, op: Op)
    requires QueueOk(q) && Below(q)
    ensures Below(Step(q, op)) <==> !Overfills(q, op)
    ensures Overfills(q, op) ==> q.info[op.locator].size < 0
  {
    match op
    case OpIntent(n, size) =>
      if n !in q.info {
        ResolveBelow(q.(queued := Insert(q.queued, Item(size, n)), info := q.info[n := Info(size, Queued, false)]));
      }
    case OpFinish(n, good) =>
      if n in q.info && Item(q.info[n].size, n) in q.inProgress { EndBelow(q, n, good); }
  }

  lemma EndBelow(q: Queue, n: int, good: bool)
    requires QueueOk(q) && Below(q) && n in q.info && Item(q.info[n].size, n) in q.inProgress
    ensures Below(Finish(q, n, good).0) <==> !Overfills(q, OpFinish(n, good))
  {
    var i := q.info[n];
    var x := Item(i.size, n);
    var t := q.(info := q.info[n := i.(status := if good then Done else Failed)], inProgress := q.inProgress - {x},
                taken := q.taken - x.size, succeeded := if good then q.succeeded + {n} else q.succeeded,
                failed := if good then q.failed else q.failed + {n});
    assert Finish(q, n, good).0 == Resolve(t);
    if q.inProgress == {x} {
      assert t.inProgress == {};
      ResolveBelow(t);
    } else if Overfills(q, OpFinish(n, good)) {
      assert t.inProgress != {} by { assert q.inProgress - {x} == {} ==> q.inProgress == {x}; }
      if q.queued != [] { assert q.queued[0] in q.queued; }
      assert Resolve(t) == t;
    } else {
      ResolveBelow(t);
    }
  }

  ghost predicate BelowThroughout(q: Queue, ops: seq<Op>)
    decreases |ops|
  {
    Below(q) && (ops == [] || BelowThroughout(Step(q, ops[0]), ops[1..]))
  }

  predicate NoneOverfills(q: Queue, ops: seq<Op>)
    decreases |ops|
  {
    ops == [] || (!Overfills(q, ops[0]) && NoneOverfills(Step(q, ops[0]), ops[1..]))
  }

  /** In every run of proper calls the space taken is below the total all the time, exactly when no upload of negative
      size ends while the others in progress take the total or more. */
  lemma {:induction false} BelowExactly(q: Queue, ops: seq<Op>)
    requires QueueOk(q) && Proper(q, ops) && Below(q)
    ensures BelowThroughout(q, ops) <==> NoneOverfills(q, ops)
    decreases |ops|
  {
    hide QueueOk, Below, Overfills, Step;
    if ops != [] {
      OneStep(q, ops);
      StepBelow(q, ops[0]);
      if Below(Step(q, ops[0])) { BelowExactly(Step(q, ops[0]), ops[1..]); }
    }
  }

  lemma OneStep(q: Queue, ops: seq<Op>)
    requires ops != [] && Proper(q, ops) && QueueOk(q)
    ensures Proper(q, ops[..1]) && RunQueue(q, ops[..1]) == Step(q, ops[0]) && QueueOk(Step(q, ops[0]))
  {
    assert ops[..1][1..] == [];
    RunKeeps(q, ops[..1]);
  }

  /** Without negative sizes it always is. */
  lemma {:induction false} NoneNegative(q: Queue, ops: seq<Op>)
    requires QueueOk(q) && Proper(q, ops) && Below(q)
    requires forall n :: n in q.info ==> q.info[n].size >= 0
    requires forall i :: 0 <= i < |ops| && ops[i].OpIntent? ==> ops[i].size >= 0
    ensures BelowThroughout(q, ops) && Below(RunQueue(q, ops))
    decreases |ops|
  {
    if ops != [] {
      OneStep(q, ops);
      StepBelow(q, ops[0]);
      forall n | n in Step(q, ops[0]).info ensures Step(q, ops[0]).info[n].size >= 0 { StepSizes(q, ops[0], n); }
      NoneNegative(Step(q, ops[0]), ops[1..]);
    }
  }

  lemma {:induction false} ResolveSizes(q: Queue, n: int)
    ensures n in Resolve(q).info <==> n in q.info
    ensures n in q.info ==> Resolve(q).info[n].size == q.info[n].size
    decreases |q.queued|
  {
    if q.queued != [] && CanHost(q, q.queued[0].size) { ResolveSizes(AdmitOne(q), n); }
  }

  lemma StepSizes(q: Queue, op: Op, n: int)
    requires n in Step(q, op).info
    ensures n in q.info ==> Step(q, op).info[n].size == q.info[n].size
    ensures n !in q.info ==> op == OpIntent(n, Step(q, op).info[n].size)
  {
    hide Resolve, Insert;
    match op
    case OpIntent(k, size) =>
      if k !in q.info {
        ResolveSizes(q.(queued := Insert(q.queued, Item(size, k)), info := q.info[k := Info(size, Queued, false)]), n);
      }
    case OpFinish(k, good) =>
      if k in q.info {
        var i := q.info[k];
        var x := Item(i.size, k);
        ResolveSizes(q.(info := q.info[k := i.(status := if good then Done else Failed)],
                        inProgress := q.inProgress - {x}, taken := q.taken - x.size,
                        succeeded := if good then q.succeeded + {k} else q.succeeded,
                        failed := if good then q.failed else q.failed + {k}), n);
      }
  }

  lemma ResolveOne(q: Queue)
    ensures q.queued == [] || (|q.queued| == 1 && !CanHost(q, q.queued[0].size)) ==> Resolve(q) == q
    ensures |q.queued| == 1 && CanHost(q, q.queued[0].size) ==> Resolve(q) == AdmitOne(q) && AdmitOne(q).queued == []
  {
  }

  /** An upload that joins an empty queue. */
  lemma IntentAlone(q: Queue, n: int, size: int)
    requires n !in q.info && q.queued == []
    ensures QueueIntent(q, n, size).0 ==
      if CanHost(q, size)
      then q.(taken := q.taken + size, inProgress := q.inProgress + {Item(size, n)}, info := q.info[n := Info(size, Sending, true)])
      else q.(queued := [Item(size, n)], info := q.info[n := Info(size, Queued, false)])
  {
    var t := q.(queued := [Item(size, n)], info := q.info[n := Info(size, Queued, false)]);
    ResolveOne(t);
    assert Insert([], Item(size, n)) == [Item(size, n)];
    assert q.info[n := Info(size, Queued, false)][n := Info(size, Sending, true)] == q.info[n := Info(size, Sending, true)];
    assert q.(queued := []) == q;
  }

  lemma RunTwo(q: Queue, a: Op, b: Op)
    ensures RunQueue(q, [a, b]) == Step(Step(q, a), b)
  {
    assert [a, b][1..] == [b] && [b][1..] == [];
    assert RunQueue(Step(q, a), [b]) == RunQueue(Step(Step(q, a), b), [b][1..]);
  }

  lemma RunThree(q: Queue, a: Op, b: Op, c: Op)
    ensures RunQueue(q, [a, b, c]) == Step(Step(Step(q, a), b), c)
  {
    assert [a, b, c][1..] == [b, c];
    RunTwo(Step(q, a), b, c);
  }

  /** A negative size: space ten, uploads of -5 and 14; when the first has ended, 14 are taken. */
  lemma NegativeUpload()
    ensures var ops := [OpIntent(1, -5), OpIntent(2, 14), OpFinish(1, true)];
      var q := RunQueue(Start(10), ops);
      && q.taken == 14 && q.inProgress == {Item(14, 2)} && QueueOk(q) && !Below(q)
  {
    var x, y := Item(-5, 1), Item(14, 2);
    var a, b, c := OpIntent(1, -5), OpIntent(2, 14), OpFinish(1, true);
    RunThree(Start(10), a, b, c);
    IntentAlone(Start(10), 1, -5);
    var one := Step(Start(10), a);
    IntentAlone(one, 2, 14);
    var two := Step(one, b);
    assert two.inProgress == {x, y} && {x, y} - {x} == {y};
    StartOk(10);
    IntentKeeps(Start(10), 1, -5);
    IntentKeeps(one, 2, 14);
    FinishKeeps(two, 1, true);
  }

  // ----- a failure while waiting lasts

  /** What holds whatever is reported, rightly or wrongly. */
  ghost predicate Counted(q: Queue) {
    && Sorted(q.queued) && q.taken == Space(q.inProgress)
    && (forall x :: x in q.queued ==> x !in q.inProgress)
    && (forall x :: x in q.queued || x in q.inProgress ==> Known(q, x))
  }

  lemma {:induction false} ResolveCounts(q: Queue)
    requires Counted(q)
    ensures Counted(Resolve(q))
    ensures forall x :: x in q.inProgress ==> x in Resolve(q).inProgress
    ensures forall x :: x in q.queued ==> x in Resolve(q).queued || x in Resolve(q).inProgress
    decreases |q.queued|
  {
    if q.queued != [] && CanHost(q, q.queued[0].size) {
      var t := AdmitOne(q);
      HeadFirst(q.queued);
      SpacePut(q.inProgress, q.queued[0]);
      forall y | y in t.queued || y in t.inProgress ensures Known(t, y) { assert Known(q, y); }
      ResolveCounts(t);
    }
  }

  lemma StepCounts(q: Queue, op: Op)
    requires Counted(q)
    ensures Counted(Step(q, op))
    ensures forall x :: x in q.inProgress && !(op.OpFinish? && op.locator == x.locator) ==> x in Step(q, op).inProgress
    ensures forall x :: x in q.queued ==> x in Step(q, op).queued || x in Step(q, op).inProgress
  {
    match op
    case OpIntent(n, size) =>
      if n !in q.info {
        var t := q.(queued := Insert(q.queued, Item(size, n)), info := q.info[n := Info(size, Queued, false)]);
        InsertKeeps(q.queued, Item(size, n));
        forall y | y in q.queued || y in q.inProgress ensures y.locator != n && Known(t, y) { assert Known(q, y); }
        ResolveCounts(t);
      }
    case OpFinish(n, good) =>
      if n in q.info {
        var i := q.info[n];
        var x := Item(i.size, n);
        var u := q.(info := q.info[n := i.(status := if good then Done else Failed)]);
        forall y | y in q.queued || y in q.inProgress ensures Known(u, y) { assert Known(q, y); }
        if x in q.inProgress {
          var t := u.(inProgress := q.inProgress - {x}, taken := q.taken - x.size,
                      succeeded := if good then q.succeeded + {n} else q.succeeded,
                      failed := if good then q.failed else q.failed + {n});
          SpacePut(q.inProgress, x);
          forall y | y in t.queued || y in t.inProgress ensures Known(t, y) { assert Known(u, y); }
          ResolveCounts(t);
        }
      }
  }

  predicate NoEnd(ops: seq<Op>, n: int) { forall i :: 0 <= i < |ops| && ops[i].OpFinish? ==> ops[i].locator != n }

  /** An upload of which nobody reports the end stays: in progress, with its size among the space taken, or waiting
      until it is. */
  lemma {:induction false} Lasts(q: Queue, ops: seq<Op>, x: Item)
    requires Counted(q) && NoEnd(ops, x.locator)
    ensures var t := RunQueue(q, ops);
      && Counted(t)
      && (x in q.inProgress ==> x in t.inProgress)
      && (x in q.queued ==> x in t.queued || x in t.inProgress)
    decreases |ops|
  {
    hide Counted, Step;
    if ops != [] {
      StepCounts(q, ops[0]);
      Lasts(Step(q, ops[0]), ops[1..], x);
    }
  }

  /** So an upload reported as failed while it waits is still admitted when the one before it has ended, and takes its
      space from then on, whatever else is called, as long as its end is not reported again. */
  lemma FailureLasts(ops: seq<Op>)
    requires NoEnd(ops, 2)
    ensures var q := RunQueue(Start(10), [OpIntent(1, 5), OpIntent(2, 8), OpFinish(2, false), OpFinish(1, true)]);
      && q.inProgress == {Item(8, 2)} && q.taken == 8
      && Item(8, 2) in RunQueue(q, ops).inProgress && RunQueue(q, ops).taken == Space(RunQueue(q, ops).inProgress)
  {
    var x, y := Item(5, 1), Item(8, 2);
    var a, b, c, d := OpIntent(1, 5), OpIntent(2, 8), OpFinish(2, false), OpFinish(1, true);
    assert [a, b, c, d][1..] == [b, c, d];
    IntentAlone(Start(10), 1, 5);
    var one := Step(Start(10), a);
    RunThree(one, b, c, d);
    IntentAlone(one, 2, 8);
    var two := Step(one, b);
    var three := Step(two, c);
    assert three.queued == [y] && three.inProgress == {x} && three.taken == 5 && 1 in three.info && three.info[1].size == 5;
    ResolveOne(three.(info := three.info[1 := three.info[1].(status := Done)], inProgress := {x} - {x}, taken := 0,
                      succeeded := three.succeeded + {1}));
    var four := Step(three, d);
    assert four.inProgress == {y} && four.taken == 8;
    StartCounted(10);
    StepCounts(Start(10), a);
    StepCounts(one, b);
    StepCounts(two, c);
    StepCounts(three, d);
    Lasts(four, ops, y);
  }

  lemma StartCounted(total: int)
    ensures Counted(Start(total))
  {
    SpaceEmpty({});
  }

  /** When nothing is in progress, only uploads too big for the whole space wait. */
  lemma NothingInProgress(q: Queue)
    requires QueueOk(q) && q.inProgress == {}
    ensures forall x :: x in q.queued ==> x.size >= q.total
  {
    SpaceEmpty({});
  }

  // ----- answers and order

  /** An upload is queued exactly if it is not known; otherwise nothing changes. Its end goes through exactly if it is in
      progress. */
  lemma AnswersExactly(q: Queue, locator: int, size: int, good: bool)
    requires QueueOk(q)
    ensures var (t, r) := QueueIntent(q, locator, size);
      if locator in q.info then t == q && r == Raised(AlreadyQueued) else r == Ok(()) && locator in t.info
    ensures var r := Finish(q, locator, good).1;
      r == if locator in q.info && q.info[locator].status == Sending then Ok(()) else Raised(KeyError)
  {
    assert Placed(q, locator);
    ResolveSizes(q.(queued := Insert(q.queued, Item(size, locator)), info := q.info[locator := Info(size, Queued, false)]), locator);
  }

  /** Those that wait stand by size, and those of one size by their numbers. */
  lemma {:induction false} WaitInOrder(q: seq<Item>, i: nat, j: nat)
    requires Sorted(q) && i < j < |q|
    ensures q[i].size < q[j].size || (q[i].size == q[j].size && q[i].locator < q[j].locator)
    decreases |q|
  {
    if i > 0 {
      WaitInOrder(q[1..], i - 1, j - 1);
    } else {
      assert q[j] == q[1..][j - 1] && q[j] in q[1..];
    }
  }

  ghost function Members(q: seq<Item>): set<Item> { set x | x in q }

  /** Resolving admits the first ones, as long as each leaves the space taken below the total, and no more. */
  lemma {:induction false} AdmittedExactly(q: Queue) returns (k: nat)
    ensures k <= |q.queued| && Resolve(q).queued == q.queued[k..]
    ensures Resolve(q).inProgress == q.inProgress + Members(q.queued[..k])
    ensures Resolve(q).taken == q.taken + PrefixSpace(q.queued, k)
    ensures forall j :: 0 < j <= k ==> q.taken + PrefixSpace(q.queued, j) < q.total
    ensures k < |q.queued| ==> q.taken + PrefixSpace(q.queued, k + 1) >= q.total
    decreases |q.queued|
  {
    if q.queued == [] || !CanHost(q, q.queued[0].size) {
      k := 0;
      assert q.queued != [] ==> PrefixSpace(q.queued, 1) == q.queued[0].size + PrefixSpace(q.queued[1..], 0);
    } else {
      var t := AdmitOne(q);
      var i := AdmittedExactly(t);
      k := i + 1;
      assert q.queued[..k] == [q.queued[0]] + t.queued[..i];
      forall j | 0 < j <= k ensures q.taken + PrefixSpace(q.queued, j) < q.total {
        if j > 1 { assert t.taken + PrefixSpace(t.queued, j - 1) < q.total; }
      }
    }
  }

  // ----- smallest first admits the most

  function PrefixSpace(q: seq<Item>, k: nat): int
    requires k <= |q|
  {
    if k == 0 then 0 else q[0].size + PrefixSpace(q[1..], k - 1)
  }

  lemma {:induction false} PrefixShift(q: seq<Item>, k: nat)
    requires Sorted(q) && k < |q|
    ensures PrefixSpace(q, k) <= PrefixSpace(q[1..], k)
  {
    if k > 0 {
      HeadFirst(q);
      assert q[1] in q && q[1..][0] == q[1];
      PrefixShift(q[1..], k - 1);
    }
  }

  /** No `k` waiting uploads need less space than the first `k`. */
  lemma {:induction false} FirstAreSmallest(q: seq<Item>, t: set<Item>)
    requires Sorted(q) && forall x :: x in t ==> x in q
    ensures |t| <= |q| && PrefixSpace(q, |t|) <= Space(t)
    decreases |q|
  {
    if q == [] {
      assert t == {};
      SpaceEmpty(t);
    } else {
      HeadFirst(q);
      SpacePut(t, q[0]);
      FirstAreSmallest(q[1..], t - {q[0]});
      if q[0] in t {
        assert |t| == |t - {q[0]}| + 1;
      } else {
        assert t - {q[0]} == t;
        PrefixShift(q, |t|);
      }
    }
  }

  lemma {:induction false} PrefixAtLeast(q: seq<Item>, k: nat)
    requires Sorted(q) && 0 < k <= |q| && q[0].size >= 0
    ensures PrefixSpace(q, k) >= q[0].size
  {
    if k > 1 {
      HeadFirst(q);
      assert q[1] in q && q[1..][0] == q[1];
      PrefixAtLeast(q[1..], k - 1);
    }
  }

  lemma {:induction false} AdmitsPrefix(q: Queue, k: nat)
    requires Sorted(q.queued) && k <= |q.queued|
    requires k > 0 ==> CanHost(q, q.queued[0].size) && q.taken + PrefixSpace(q.queued, k) < q.total
    ensures |Resolve(q).queued| <= |q.queued| - k
    decreases |q.queued|
  {
    if k > 0 {
      var t := AdmitOne(q);
      HeadFirst(q.queued);
      if k > 1 && t.queued[0].size >= 0 { PrefixAtLeast(t.queued, k - 1); }
      AdmitsPrefix(t, k - 1);
    } else {
      ResolveShortens(q);
    }
  }

  lemma {:induction false} ResolveShortens(q: Queue)
    ensures |Resolve(q).queued| <= |q.queued|
    decreases |q.queued|
  {
    if q.queued != [] && CanHost(q, q.queued[0].size) { ResolveShortens(AdmitOne(q)); }
  }

  /** Resolving admits at least as many uploads as a set of waiting uploads that fits together, exactly when the set is
      empty or the first upload fits. */
  lemma AdmitsTheMost(q: Queue, t: set<Item>)
    requires Sorted(q.queued) && (forall x :: x in t ==> x in q.queued) && q.taken + Space(t) < q.total
    ensures |t| <= |q.queued| - |Resolve(q).queued| <==> t == {} || CanHost(q, q.queued[0].size)
  {
    FirstAreSmallest(q.queued, t);
    if t == {} {
      ResolveShortens(q);
    } else if CanHost(q, q.queued[0].size) {
      AdmitsPrefix(q, |t|);
    }
  }

  /** And the first does fit when there is room left, or no size is negative. */
  lemma FirstFits(q: Queue, t: set<Item>)
    requires Sorted(q.queued) && (forall x :: x in t ==> x in q.queued) && q.taken + Space(t) < q.total && t != {}
    requires q.taken < q.total || forall x :: x in q.queued ==> x.size >= 0
    ensures CanHost(q, q.queued[0].size)
  {
    FirstAreSmallest(q.queued, t);
    if q.queued[0].size >= 0 { PrefixAtLeast(q.queued, |t|); }
  }

  /** With too much taken, three uploads of negative size would fit together, and none is admitted. */
  lemma NoneOfThree()
    ensures var a, b, c := Item(-1, 1), Item(-1, 2), Item(-1, 3);
      var q := Queue(10, 12, [a, b, c], {}, {}, {}, map[]);
      Sorted(q.queued) && q.taken + Space({a, b, c}) < q.total && Resolve(q) == q
  {
    var a, b, c := Item(-1, 1), Item(-1, 2), Item(-1, 3);
    assert [a, b, c][1..] == [b, c] && [b, c][1..] == [c] && [c][1..] == [];
    SpaceEmpty({});
    SpacePut({}, a);
    SpacePut({a}, b);
    SpacePut({a, b}, c);
    assert Sorted([c]) && Sorted([b, c]);
    assert {} + {a} == {a} && {a} + {b} == {a, b} && {a, b} + {c} == {a, b, c};
  }

  // ----- the class

  class QueueStateHandler {
    const total: int
    var taken: int
    var queued: seq<Item>
    var inProgress: set<Item>
    var succeeded: set<int>
    var failed: set<int>
    var info: map<int, Info>

    ghost function Abs(): Queue
      reads this
    {
      Queue(total, taken, queued, inProgress, succeeded, failed, info)
    }

    constructor (total: int)
      ensures Abs() == Start(total)
    {
      this.total, taken, queued, inProgress, succeeded, failed, info := total, 0, [], {}, {}, {}, map[];
    }

    method ResolveQueued()
      modifies this
      ensures Abs() == Resolve(old(Abs()))
    {
      ghost var target := Resolve(Abs());
      var all, i := queued, 0;
      assert queued == all[0..];
      while i < |all| && taken + all[i].size < total
        invariant 0 <= i <= |all|
        invariant Resolve(Abs().(queued := all[i..])) == target
      {
        var x := all[i];
        assert all[i..][1..] == all[i + 1..];
        inProgress := inProgress + {x};
        taken := taken + x.size;
        if x.locator in info {
          info := info[x.locator := info[x.locator].(status := Sending, signalled := true)];
        }
        i := i + 1;
      }
      queued := all[i..];
    }

    method Intent(locator: int, size: int) returns (r: Outcome<(), QueueError>)
      modifies this
      ensures Abs() == QueueIntent(old(Abs()), locator, size).0 && r == QueueIntent(old(Abs()), locator, size).1
    {
      if locator in info {
        return Raised(AlreadyQueued);
      }
      queued := Insert(queued, Item(size, locator));
      info := info[locator := Info(size, Queued, false)];
      ResolveQueued();
      r := Ok(());
    }

    method FinishFor(locator: int, good: bool) returns (r: Outcome<(), QueueError>)
      modifies this
      ensures Abs() == Finish(old(Abs()), locator, good).0 && r == Finish(old(Abs()), locator, good).1
    {
      if locator !in info {
        return Raised(KeyError);
      }
      var i := info[locator];
      info := info[locator := i.(status := if good then Done else Failed)];
      var x := Item(i.size, locator);
      if x !in inProgress {
        return Raised(KeyError);
      }
      inProgress := inProgress - {x};
      taken := taken - i.size;
      if good {
        succeeded := succeeded + {locator};
      } else {
        failed := failed + {locator};
      }
      ResolveQueued();
      r := Ok(());
    }
  }
}
