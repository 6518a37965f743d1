/** Sender, receiver and network together. The network may lose, repeat and reorder datagrams: everything ever
    put on it stays available for delivery, any number of times. */
module SlidingWindow {
  import opened Common
  import opened Congestion
  import opened Wire
  import opened Sender

  // ----- the receiver

  /** `pending` is a datagram that has been acked and not yet looked up; handlers are known by their position in
      the list of everything dispatched so far. */
  datatype Receiver = Receiver(
    seen: seq<nat>, dispatched: seq<(nat, bytes)>, pending: Option<(nat, bytes)>, running: set<nat>, finished: set<nat>)

  /** The oldest entries go until there is room for one more. */
  function Evict(seen: seq<nat>, window: nat): seq<nat>
    requires window >= 1
  {
    if |seen| < window then seen else Evict(seen[1..], window)
  }

  function Dedup(r: Receiver, window: nat): Receiver
    requires window >= 1
  {
    if r.pending.None? then r
    else if r.pending.value.0 in r.seen then r.(pending := None)
    else r.(seen := Evict(r.seen, window) + [r.pending.value.0], dispatched := r.dispatched + [r.pending.value], pending := None)
  }

  function Numbers(dispatched: seq<(nat, bytes)>): (numbers: seq<nat>)
    ensures |numbers| == |dispatched|
    ensures forall i :: 0 <= i < |numbers| ==> numbers[i] == dispatched[i].0
  {
    if dispatched == [] then [] else Numbers(dispatched[..|dispatched| - 1]) + [dispatched[|dispatched| - 1].0]
  }

  function Last(s: seq<nat>, n: nat): seq<nat> { if |s| <= n then s else s[|s| - n..] }

  /** The memory of the receiver is the last `window` dispatches. */
  ghost predicate Remembers(r: Receiver, window: nat) { r.seen == Last(Numbers(r.dispatched), window) }

  /** Two dispatches of one number are more than `window` dispatches apart. */
  ghost predicate Spaced(d: seq<(nat, bytes)>, window: nat) {
    forall i, j :: 0 <= i < j < |d| && d[i].0 == d[j].0 ==> j - i > window
  }

  lemma {:induction false} EvictKeepsLast(seen: seq<nat>, window: nat)
    requires window >= 1
    ensures Evict(seen, window) == Last(seen, window - 1)
  {
    if |seen| >= window { EvictKeepsLast(seen[1..], window); }
  }

  lemma LastSnoc(s: seq<nat>, n: nat, window: nat)
    requires window >= 1
    ensures Last(s + [n], window) == Last(Last(s, window), window - 1) + [n]
  {
  }

  lemma LastAt(s: seq<nat>, window: nat, i: nat)
    requires i < |s| && |s| - i <= window
    ensures s[i] in Last(s, window)
  {
    if |s| > window { assert Last(s, window)[i - (|s| - window)] == s[i]; }
  }

  /** A number that is not remembered was not among the last `window` dispatches. */
  lemma NotRecent(d: seq<(nat, bytes)>, window: nat, i: nat)
    requires i < |d| && d[i].0 !in Last(Numbers(d), window)
    ensures |d| - i > window
  {
    hide Last;
    if |d| - i <= window { LastAt(Numbers(d), window, i); }
  }

  lemma DedupRemembers(r: Receiver, window: nat)
    requires window >= 1 && Remembers(r, window) && Spaced(r.dispatched, window)
    ensures Remembers(Dedup(r, window), window) && Spaced(Dedup(r, window).dispatched, window)
  {
    if r.pending.Some? && r.pending.value.0 !in r.seen {
      var d, n := r.dispatched, r.pending.value.0;
      var all := d + [r.pending.value];
      EvictKeepsLast(r.seen, window);
      assert all[..|all| - 1] == d;
      LastSnoc(Numbers(d), n, window);
      forall i | 0 <= i < |d| && d[i].0 == n ensures |d| - i > window { NotRecent(d, window, i); }
      hide Last, Evict;
    }
  }

  class DedupMemory {
    var seen: seq<nat>
    const window: nat

    constructor (window: nat)
      ensures seen == [] && this.window == window
    {
      seen, this.window := [], window;
    }

    /** True for a number not seen among the last `window` accepted ones, which is then remembered. */
    method Accept(n: nat) returns (isNew: bool)
      requires window >= 1
      modifies this
      ensures isNew <==> n !in old(seen)
      ensures seen == if isNew then Evict(old(seen), window) + [n] else old(seen)
    {
      if n in seen {
        return false;
      }
      while |seen| >= window
        invariant Evict(seen, window) == Evict(old(seen), window)
        decreases |seen|
      {
        seen := seen[1..];
      }
      seen := seen + [n];
      isNew := true;
    }
  }

  // ----- the whole system

  datatype World = World(sender: State, receiver: Receiver, data: set<bytes>, acks: set<bytes>)

  datatype Setup = Setup(config: Config, window: nat, maxQueue: nat)

  ghost predicate SetupOk(u: Setup) { u.config.maxWindow >= 1.0 && u.window >= 1 && u.maxQueue < U16 }

  datatype Event =
    | SenderActs(action: Action, lost: bool)
    | AckDelivered(raw: bytes)
    | DataDelivered(raw: bytes, lost: bool)
    | Dedups
    | HandlerStarts(i: nat)
    | HandlerEnds(i: nat, lost: bool)

  function StartWorld(u: Setup): World {
    World(Initial(u.config), Receiver([], [], None, {}, {}), {}, {})
  }

  /** The packet a sender step puts on the network, if any. */
  function Emitted(s: State, a: Action): Option<(nat, bytes)> {
    match a
    case Transmit(_) =>
      if s.producer.Registered? && s.producer.n in s.slots && s.producer.n < U32
      then Some((s.producer.n, s.slots[s.producer.n].payload)) else None
    case DogResends(n) => if At(s, n) == Some(RetrySend) then Some((n, s.slots[n].payload)) else None
    case _ => None
  }

  function Put(net: set<bytes>, datagram: Outcome<bytes, WireError>, lost: bool): set<bytes> {
    if lost || datagram.Raised? then net else net + {datagram.value}
  }

  /** A packet number must fit the header for the packet to be sent at all. */
  function Actual(s: State, a: Action): Action {
    if a.Transmit? then Transmit(s.producer.Registered? && s.producer.n < U32) else a
  }

  function Room(u: Setup, r: Receiver): int { u.maxQueue - |r.running| }

  ghost function Next(u: Setup, w: World, e: Event): World
    requires WindowOk(w.sender.window) && u.window >= 1
  {
    match e
    case SenderActs(a, lost) =>
      if a.AckArrives? then w
      else
        var sent := Emitted(w.sender, a);
        w.(sender := Step(u.config, w.sender, Actual(w.sender, a)),
           data := if sent.Some? then Put(w.data, EncodeData(sent.value.0, sent.value.1), lost) else w.data)
    case AckDelivered(raw) =>
      if raw in w.acks && Decode(raw).Ok? && Decode(raw).value.Ack?
      then w.(sender := Step(u.config, w.sender, AckArrives(Decode(raw).value.seqNo, Decode(raw).value.rwnd)))
      else w
    case DataDelivered(raw, lost) =>
      if raw in w.data && w.receiver.pending.None? && Decode(raw).Ok? && Decode(raw).value.Data? && Room(u, w.receiver) >= 0 then
        var p := Decode(raw).value;
        w.(receiver := w.receiver.(pending := Some((p.seqNo, p.payload))),
           acks := Put(w.acks, EncodeAck(p.seqNo, Room(u, w.receiver)), lost))
      else w
    case Dedups => w.(receiver := Dedup(w.receiver, u.window))
    case HandlerStarts(i) =>
      if i < |w.receiver.dispatched| && i !in w.receiver.running + w.receiver.finished && |w.receiver.running| < u.maxQueue
      then w.(receiver := w.receiver.(running := w.receiver.running + {i}))
      else w
    case HandlerEnds(i, lost) =>
      if i in w.receiver.running && i < |w.receiver.dispatched| then
        var r := w.receiver.(running := w.receiver.running - {i}, finished := w.receiver.finished + {i});
        if Room(u, r) < 0 then w
        else w.(receiver := r, acks := Put(w.acks, EncodeAck(r.dispatched[i].0, Room(u, r)), lost))
      else w
  }

  // ----- what every run keeps

  /** The sender registered this number with this payload. */
  ghost predicate WasSent(s: State, n: nat, payload: bytes) { n in s.slots && s.slots[n].payload == payload }

  /** Dispatched to the handler, or about to be looked up for that. */
  ghost predicate Heard(r: Receiver, n: nat) {
    n in Numbers(r.dispatched) || (r.pending.Some? && r.pending.value.0 == n)
  }

  /** A datagram on the way to the receiver carries a packet that was sent. */
  ghost predicate DataOk(s: State, raw: bytes) {
    Decode(raw).Ok? && Decode(raw).value.Data? && WasSent(s, Decode(raw).value.seqNo, Decode(raw).value.payload)
  }

  ghost predicate AllData(s: State, data: set<bytes>) { forall raw :: raw in data ==> DataOk(s, raw) }

  /** What the receiver holds was sent. */
  ghost predicate ReceivedOk(s: State, r: Receiver) {
    && (forall d :: d in r.dispatched ==> WasSent(s, d.0, d.1))
    && (r.pending.Some? ==> WasSent(s, r.pending.value.0, r.pending.value.1))
  }

  /** An ack on the way to the sender is for a packet the receiver has heard. */
  ghost predicate AckOk(r: Receiver, raw: bytes) {
    Decode(raw).Ok? && Decode(raw).value.Ack? && Heard(r, Decode(raw).value.seqNo)
  }

  ghost predicate AllAcks(r: Receiver, acks: set<bytes>) { forall raw :: raw in acks ==> AckOk(r, raw) }

  /** So is every packet the sender is handling an ack for, or holds for acked. */
  ghost predicate AckedHeard(s: State, r: Receiver) {
    && (!s.ack.AckIdle? ==> Heard(r, s.ack.n))
    && (forall n :: n in s.slots && s.slots[n].state.Acked? ==> Heard(r, n))
  }

  ghost predicate ReceiverOk(u: Setup, r: Receiver) {
    Remembers(r, u.window) && Spaced(r.dispatched, u.window) && |r.running| <= u.maxQueue
  }

  ghost predicate Invariant(u: Setup, w: World) {
    && Sound(u.config, w.sender) && ReceiverOk(u, w.receiver)
    && AllData(w.sender, w.data) && ReceivedOk(w.sender, w.receiver)
    && AllAcks(w.receiver, w.acks) && AckedHeard(w.sender, w.receiver)
  }

  // -- sender steps

  ghost predicate KeepsPayloads(s: State, t: State) {
    forall n :: n in s.slots ==> n in t.slots && t.slots[n].payload == s.slots[n].payload
  }

  /** Registered packets keep their payload, and only the ack task marks a packet acked. */
  lemma StepKeeps(cfg: Config, s: State, a: Action)
    requires Watched(s) && WindowOk(s.window)
    ensures KeepsPayloads(s, Step(cfg, s, a)) && AcksFrom(s, Step(cfg, s, a), a)
  {
    hide Watched, KeepsPayloads, AcksFrom, ProducerStep, AckStep, DogStep;
    ProducerKeeps(s, a);
    AckKeeps(s, a);
    DogKeeps(cfg, s, a);
  }

  ghost predicate AcksFrom(s: State, t: State, a: Action) {
    && (forall n :: n in t.slots && t.slots[n].state.Acked? ==>
          (n in s.slots && s.slots[n].state.Acked?) || (!s.ack.AckIdle? && s.ack.n == n))
    && (!t.ack.AckIdle? ==> (!s.ack.AckIdle? && t.ack.n == s.ack.n) || (a.AckArrives? && t.ack.n == a.n))
  }

  lemma ProducerKeeps(s: State, a: Action)
    requires Watched(s)
    ensures KeepsPayloads(s, ProducerStep(s, a)) && AcksFrom(s, ProducerStep(s, a), a)
  {
  }

  lemma AckKeeps(s: State, a: Action)
    requires WindowOk(s.window)
    ensures KeepsPayloads(s, AckStep(s, a)) && AcksFrom(s, AckStep(s, a), a)
  {
  }

  lemma DogKeeps(cfg: Config, s: State, a: Action)
    ensures KeepsPayloads(s, DogStep(cfg, s, a)) && AcksFrom(s, DogStep(cfg, s, a), a)
  {
  }

  lemma StillSent(s: State, t: State, data: set<bytes>, r: Receiver)
    requires KeepsPayloads(s, t)
    ensures AllData(s, data) ==> AllData(t, data)
    ensures ReceivedOk(s, r) ==> ReceivedOk(t, r)
  {
    if AllData(s, data) {
      forall raw | raw in data ensures DataOk(t, raw) { assert DataOk(s, raw); }
    }
  }

  /** What a step puts on the network was sent. */
  lemma EmittedOk(s: State, a: Action, data: set<bytes>, lost: bool)
    requires AllData(s, data) && Emitted(s, a).Some?
    ensures AllData(s, Put(data, EncodeData(Emitted(s, a).value.0, Emitted(s, a).value.1), lost))
  {
    DecodeEncoded(Emitted(s, a).value.0, Emitted(s, a).value.1, 0);
  }

  lemma StepHeard(u: Setup, s: State, a: Action, r: Receiver)
    requires Watched(s) && WindowOk(s.window) && AckedHeard(s, r) && (a.AckArrives? ==> Heard(r, a.n))
    ensures AckedHeard(Step(u.config, s, a), r)
  {
    hide Step, Heard, Watched;
    StepKeeps(u.config, s, a);
  }

  lemma SenderKeeps(u: Setup, w: World, a: Action, lost: bool)
    requires SetupOk(u) && Invariant(u, w)
    ensures Invariant(u, Next(u, w, SenderActs(a, lost)))
  {
    if !a.AckArrives? {
      var b := Actual(w.sender, a);
      var t := Step(u.config, w.sender, b);
      StepSound(u.config, w.sender, b);
      StepKeeps(u.config, w.sender, b);
      StepHeard(u, w.sender, b, w.receiver);
      if Emitted(w.sender, a).Some? { EmittedOk(w.sender, a, w.data, lost); }
      StillSent(w.sender, t, w.data, w.receiver);
      StillSent(w.sender, t, Next(u, w, SenderActs(a, lost)).data, w.receiver);
      hide Sound, Step, ReceiverOk, AllData, ReceivedOk, AllAcks, AckedHeard, KeepsPayloads;
    }
  }

  lemma AckDeliveredKeeps(u: Setup, w: World, raw: bytes)
    requires SetupOk(u) && Invariant(u, w)
    ensures Invariant(u, Next(u, w, AckDelivered(raw)))
  {
    if raw in w.acks {
      assert AckOk(w.receiver, raw);
      var a := AckArrives(Decode(raw).value.seqNo, Decode(raw).value.rwnd);
      StepSound(u.config, w.sender, a);
      StepKeeps(u.config, w.sender, a);
      StepHeard(u, w.sender, a, w.receiver);
      StillSent(w.sender, Step(u.config, w.sender, a), w.data, w.receiver);
      hide Sound, Step, ReceiverOk, AllData, ReceivedOk, AllAcks, AckedHeard, KeepsPayloads, Decode;
    }
  }

  // -- receiver steps

  ghost predicate HearsMore(r: Receiver, r': Receiver) { forall n :: Heard(r, n) ==> Heard(r', n) }

  lemma StillHeard(s: State, r: Receiver, r': Receiver, acks: set<bytes>)
    requires HearsMore(r, r')
    ensures AllAcks(r, acks) ==> AllAcks(r', acks)
    ensures AckedHeard(s, r) ==> AckedHeard(s, r')
  {
    if AllAcks(r, acks) {
      forall raw | raw in acks ensures AckOk(r', raw) { assert AckOk(r, raw); }
    }
  }

  lemma AckSent(r: Receiver, acks: set<bytes>, n: nat, room: int, lost: bool)
    requires AllAcks(r, acks) && Heard(r, n) && room >= 0
    ensures AllAcks(r, Put(acks, EncodeAck(n, room), lost))
  {
    DecodeEncoded(n, [], room);
  }

  lemma DataDeliveredKeeps(u: Setup, w: World, raw: bytes, lost: bool)
    requires SetupOk(u) && Invariant(u, w)
    ensures Invariant(u, Next(u, w, DataDelivered(raw, lost)))
  {
    if raw in w.data && w.receiver.pending.None? {
      assert DataOk(w.sender, raw);
      hide Sound, AllData, AllAcks, AckedHeard, Decode;
      var p := Decode(raw).value;
      var r := w.receiver.(pending := Some((p.seqNo, p.payload)));
      assert HearsMore(w.receiver, r);
      StillHeard(w.sender, w.receiver, r, w.acks);
      AckSent(r, w.acks, p.seqNo, Room(u, w.receiver), lost);
      hide Sound, AllData, AllAcks, AckedHeard, Decode;
    }
  }

  lemma DedupsKeeps(u: Setup, w: World)
    requires SetupOk(u) && Invariant(u, w)
    ensures Invariant(u, Next(u, w, Dedups))
  {
    hide Sound, AllData, AllAcks, AckedHeard, Remembers, Spaced, HearsMore;
    var r := Dedup(w.receiver, u.window);
    DedupRemembers(w.receiver, u.window);
    DedupHears(u, w.receiver);
    StillHeard(w.sender, w.receiver, r, w.acks);
  }

  lemma HandlerStartsKeeps(u: Setup, w: World, i: nat)
    requires SetupOk(u) && Invariant(u, w)
    ensures Invariant(u, Next(u, w, HandlerStarts(i)))
  {
    var r := w.receiver;
    StillHeard(w.sender, r, r.(running := r.running + {i}), w.acks);
    hide Sound, AllData, AllAcks, AckedHeard, Remembers, Spaced, HearsMore;
  }

  lemma Shrinks(s: set<nat>, i: nat)
    ensures |s - {i}| == if i in s then |s| - 1 else |s|
  {
    if i in s { assert s == (s - {i}) + {i}; } else { assert s - {i} == s; }
  }

  lemma HandlerEndsKeeps(u: Setup, w: World, i: nat, lost: bool)
    requires SetupOk(u) && Invariant(u, w)
    ensures Invariant(u, Next(u, w, HandlerEnds(i, lost)))
  {
    var r := w.receiver;
    if i in r.running && i < |r.dispatched| {
      var r' := r.(running := r.running - {i}, finished := r.finished + {i});
      hide Sound, AllData, AllAcks, AckedHeard, EncodeAck, ReceiverOk, HearsMore, Heard;
      Ended(u, r, r', i);
      StillHeard(w.sender, r, r', w.acks);
      AckSent(r', w.acks, r.dispatched[i].0, Room(u, r'), lost);
    }
  }

  lemma Ended(u: Setup, r: Receiver, r': Receiver, i: nat)
    requires ReceiverOk(u, r) && i < |r.dispatched|
    requires r' == r.(running := r.running - {i}, finished := r.finished + {i})
    ensures ReceiverOk(u, r') && HearsMore(r, r') && Heard(r', r.dispatched[i].0) && Room(u, r') >= 0
  {
    hide Spaced;
    Shrinks(r.running, i);
    assert r.dispatched[i].0 == Numbers(r.dispatched)[i];
  }

  lemma DedupHears(u: Setup, r: Receiver)
    requires u.window >= 1 && Remembers(r, u.window)
    ensures HearsMore(r, Dedup(r, u.window))
  {
    if r.pending.Some? {
      var n := r.pending.value.0;
      if n in r.seen {
        assert n in Numbers(r.dispatched);
      } else {
        var all := r.dispatched + [r.pending.value];
        assert all[..|all| - 1] == r.dispatched;
        assert Numbers(all) == Numbers(r.dispatched) + [n];
      }
    }
  }

  lemma NextKeeps(u: Setup, w: World, e: Event)
    requires SetupOk(u) && Invariant(u, w)
    ensures Invariant(u, Next(u, w, e))
  {
    hide Next, Invariant;
    match e
    case SenderActs(a, lost) => SenderKeeps(u, w, a, lost);
    case AckDelivered(raw) => AckDeliveredKeeps(u, w, raw);
    case DataDelivered(raw, lost) => DataDeliveredKeeps(u, w, raw, lost);
    case Dedups => DedupsKeeps(u, w);
    case HandlerStarts(i) => HandlerStartsKeeps(u, w, i);
    case HandlerEnds(i, lost) => HandlerEndsKeeps(u, w, i, lost);
  }

  /** The system after any sequence of events; an event that is not possible changes nothing. */
  ghost function RunWorld(u: Setup, events: seq<Event>): (w: World)
    requires SetupOk(u)
    ensures Invariant(u, w)
    decreases |events|
  {
    if events == [] then
      InitialSound(u.config);
      StartWorld(u)
    else
      var before := RunWorld(u, events[..|events| - 1]);
      NextKeeps(u, before, events[|events| - 1]);
      Next(u, before, events[|events| - 1])
  }

  /** In every run, every payload handed to the handler was sent under its number; a packet the sender holds for
      acked was dispatched (at the latest when the receiver finishes with its current datagram); and two
      dispatches of one number are more than the dedup window apart. */
  lemma DeliveryIsSafe(u: Setup, events: seq<Event>)
    requires SetupOk(u)
    ensures var w := RunWorld(u, events);
      && (forall i :: 0 <= i < |w.receiver.dispatched| ==> WasSent(w.sender, w.receiver.dispatched[i].0, w.receiver.dispatched[i].1))
      && (forall n :: n in w.sender.slots && w.sender.slots[n].state.Acked? ==> Heard(w.receiver, n))
      && (w.receiver.pending.None? ==> forall n :: n in w.sender.slots && w.sender.slots[n].state.Acked? ==> n in Numbers(w.receiver.dispatched))
      && w.receiver.seen == Last(Numbers(w.receiver.dispatched), u.window)
      && Spaced(w.receiver.dispatched, u.window)
  {
  }

  /** A run that dispatches no more messages than the dedup window plus one dispatches each at most once. */
  lemma AtMostOnce(u: Setup, events: seq<Event>, i: nat, j: nat)
    requires SetupOk(u) && i < j < |RunWorld(u, events).receiver.dispatched| <= u.window + 1
    ensures RunWorld(u, events).receiver.dispatched[i].0 != RunWorld(u, events).receiver.dispatched[j].0
  {
  }

  // ----- the last packet number

  /** Packet numbers from 2^32 on cannot be encoded: once registered such a packet is about to get stuck, or is. */
  ghost predicate NumbersOk(s: State) {
    && (forall n :: n in s.slots && n >= U32 ==> n in s.live && (n in s.stuck <==> s.producer != Registered(n)))
    && (forall n :: n in s.stuck ==> n >= U32)
    && (s.producer.Transmitted? ==> s.producer.n < U32)
    && (!s.ack.AckIdle? ==> s.ack.n < U32)
  }

  lemma ProducerNumbers(s: State, a: Action)
    requires NumbersOk(s) && Watched(s) && (a.Transmit? ==> a.encodable == (s.producer.Registered? && s.producer.n < U32))
    ensures NumbersOk(ProducerStep(s, a))
  {
  }

  lemma AckNumbers(s: State, a: Action)
    requires NumbersOk(s) && WindowOk(s.window) && (a.AckArrives? ==> a.n < U32)
    ensures NumbersOk(AckStep(s, a))
  {
  }

  lemma DogNumbers(cfg: Config, s: State, a: Action)
    requires NumbersOk(s) && Watched(s)
    ensures NumbersOk(DogStep(cfg, s, a))
  {
  }

  lemma StepNumbers(cfg: Config, s: State, a: Action)
    requires NumbersOk(s) && Watched(s) && WindowOk(s.window) && (a.AckArrives? ==> a.n < U32)
    requires a.Transmit? ==> a.encodable == (s.producer.Registered? && s.producer.n < U32)
    ensures NumbersOk(Step(cfg, s, a))
  {
    hide NumbersOk, Watched, ProducerStep, AckStep, DogStep;
    ProducerNumbers(s, a);
    AckNumbers(s, a);
    DogNumbers(cfg, s, a);
  }

  /** An ack that can be decoded is for a number that can be encoded. */
  lemma AckNumberSmall(raw: bytes)
    requires Decode(raw).Ok? && Decode(raw).value.Ack?
    ensures Decode(raw).value.seqNo < U32
  {
    U32Unpack(raw[1..5]);
  }

  lemma NextNumbers(u: Setup, w: World, e: Event)
    requires SetupOk(u) && Invariant(u, w) && NumbersOk(w.sender)
    ensures NumbersOk(Next(u, w, e).sender)
  {
    hide NumbersOk, Watched, Step, Decode, ReceiverOk, AllData, ReceivedOk, AllAcks, AckedHeard;
    if e.SenderActs? && !e.action.AckArrives? {
      StepNumbers(u.config, w.sender, Actual(w.sender, e.action));
    } else if e.AckDelivered? && Decode(e.raw).Ok? && Decode(e.raw).value.Ack? {
      AckNumberSmall(e.raw);
      StepNumbers(u.config, w.sender, AckArrives(Decode(e.raw).value.seqNo, Decode(e.raw).value.rwnd));
    }
  }

  lemma {:induction false} RunNumbers(u: Setup, events: seq<Event>)
    requires SetupOk(u)
    ensures NumbersOk(RunWorld(u, events).sender)
    decreases |events|
  {
    hide Next, Invariant;
    if events != [] {
      RunNumbers(u, events[..|events| - 1]);
      NextNumbers(u, RunWorld(u, events[..|events| - 1]), events[|events| - 1]);
    }
  }

  /** In every run the packets whose `send` has raised are those with numbers from 2^32 on, but one that is just about
      to be encoded; each of them is in flight, and has no watchdog. */
  lemma LastNumber(u: Setup, events: seq<Event>)
    requires SetupOk(u)
    ensures var s := RunWorld(u, events).sender;
      && (forall n :: n in s.stuck <==> n in s.slots && n >= U32 && s.producer != Registered(n))
      && (forall n :: n in s.slots && n >= U32 ==> n in s.live && n !in s.dogs)
      && (U32 in s.slots <==> s.next > U32)
  {
    RunNumbers(u, events);
    LastNumberOf(u, RunWorld(u, events));
  }

  lemma LastNumberOf(u: Setup, w: World)
    requires Invariant(u, w) && NumbersOk(w.sender)
    ensures var s := w.sender;
      && (forall n :: n in s.stuck <==> n in s.slots && n >= U32 && s.producer != Registered(n))
      && (forall n :: n in s.slots && n >= U32 ==> n in s.live && n !in s.dogs)
      && (U32 in s.slots <==> s.next > U32)
  {
    assert Watched(w.sender);
  }

  ghost function SenderAfter(u: Setup, events: seq<Event>): (s: State)
    requires SetupOk(u)
    ensures Sound(u.config, s)
  {
    RunWorld(u, events).sender
  }

  /** From every reachable state with no `send` under way: whatever acks (as they can be decoded) and watchdogs do, once
      no watchdog has a step left the flight is empty exactly when number 2^32 had not been registered. */
  lemma DrainExactly(u: Setup, events: seq<Event>, acts: seq<Action>)
    requires SetupOk(u)
    requires SenderAfter(u, events).producer.Idle?
    requires Draining(acts) && Quiescent(u.config, Exec(u.config, SenderAfter(u, events), acts))
    requires forall i :: 0 <= i < |acts| && acts[i].AckArrives? ==> acts[i].n < U32
    ensures Exec(u.config, SenderAfter(u, events), acts).live == {} <==> U32 !in SenderAfter(u, events).slots
  {
    hide RunWorld, Exec, Quiescent, Watched, PermitsOk, ParkOk, TriesOk, SamplesOk;
    RunNumbers(u, events);
    StuckFrom(SenderAfter(u, events));
    DrainFinishesExactly(u.config, SenderAfter(u, events), acts);
  }

  /** And whatever they have done, the watchdogs get there. */
  lemma DrainEnds(u: Setup, events: seq<Event>, acts: seq<Action>) returns (more: seq<Action>)
    requires SetupOk(u) && SenderAfter(u, events).producer.Idle? && Draining(acts)
    requires forall i :: 0 <= i < |acts| && acts[i].AckArrives? ==> acts[i].n < U32
    ensures DogsOnly(more)
    ensures Exec(u.config, SenderAfter(u, events), acts + more).live == {} <==> U32 !in SenderAfter(u, events).slots
  {
    hide RunWorld, Exec, Quiescent, Sound;
    more := DrainCanEnd(u.config, SenderAfter(u, events), acts);
    DrainExactly(u, events, acts + more);
  }

  lemma StuckFrom(s: State)
    requires Watched(s) && NumbersOk(s) && s.producer.Idle?
    ensures s.live !! s.stuck <==> U32 !in s.slots
    ensures forall n :: n in s.stuck ==> n >= U32
    ensures s.ack.AckPop? ==> s.ack.n < U32
  {
    if U32 in s.slots { assert U32 in s.live && U32 in s.stuck; }
  }

  // ----- what is put on the network

  /** A datagram that decodes to this packet. */
  ghost predicate Carries(raw: bytes, p: Packet) { Decode(raw) == Ok(p) }

  /** The network has gained a datagram for this packet, or lost it; whatever else it carried it still does. */
  ghost predicate Gains(before: set<bytes>, after: set<bytes>, p: Packet, lost: bool) {
    if lost then after == before else exists raw :: Carries(raw, p) && after == before + {raw}
  }

  /** Each time the sender counts one more transmission of a packet, a datagram with the packet's number and payload is put
      on the network, the first time as every other; and it puts nothing else there. */
  lemma SenderPuts(u: Setup, events: seq<Event>, a: Action, lost: bool, n: nat)
    requires SetupOk(u)
    ensures var w := RunWorld(u, events);
      var w' := Next(u, w, SenderActs(a, lost));
      && w'.acks == w.acks
      && (Count(w'.sender.transmissions, n) != Count(w.sender.transmissions, n) ==>
            n in w.sender.slots && Gains(w.data, w'.data, Data(n, w.sender.slots[n].payload), lost))
      && (w'.sender.transmissions == w.sender.transmissions ==> w'.data == w.data)
  {
    hide RunWorld;
    LastNumber(u, events);
    SenderPutsAt(u, RunWorld(u, events), a, lost, n);
  }

  lemma SenderPutsAt(u: Setup, w: World, a: Action, lost: bool, n: nat)
    requires SetupOk(u) && Invariant(u, w) && forall k :: k in w.sender.slots && k >= U32 ==> k !in w.sender.dogs
    ensures var w' := Next(u, w, SenderActs(a, lost));
      && w'.acks == w.acks
      && (Count(w'.sender.transmissions, n) != Count(w.sender.transmissions, n) ==>
            n in w.sender.slots && Gains(w.data, w'.data, Data(n, w.sender.slots[n].payload), lost))
      && (w'.sender.transmissions == w.sender.transmissions ==> w'.data == w.data)
  {
    hide AllData, ReceivedOk, AllAcks, AckedHeard, ReceiverOk, PermitsOk, TriesOk, SamplesOk, Step, Decode, EncodeData, Gains;
    if !a.AckArrives? {
      var s := w.sender;
      CountsMove(u.config, s, Actual(s, a));
      if Emitted(s, a).Some? { PutGains(w.data, Emitted(s, a).value.0, Emitted(s, a).value.1, lost); }
    }
  }

  /** The number counted, if any. */
  ghost function CountedBy(s: State, a: Action): Option<nat> {
    if a == Transmit(true) && s.producer.Registered? then Some(s.producer.n)
    else if a.DogResends? && a.n in s.dogs && s.dogs[a.n] == RetrySend then Some(a.n)
    else None
  }

  lemma CountsMove(cfg: Config, s: State, a: Action)
    requires Watched(s) && WindowOk(s.window)
    ensures var t := Step(cfg, s, a);
      match CountedBy(s, a)
      case None => t.transmissions == s.transmissions
      case Some(n) => n in s.slots && t.transmissions == s.transmissions[n := Count(s.transmissions, n) + 1]
  {
  }

  lemma PutGains(net: set<bytes>, n: nat, payload: bytes, lost: bool)
    requires n < U32
    ensures Gains(net, Put(net, EncodeData(n, payload), lost), Data(n, payload), lost)
  {
    hide Decode;
    DataLayout(n, payload);
    DecodeEncoded(n, payload, 0);
    if !lost { assert Carries(EncodeData(n, payload).value, Data(n, payload)); }
  }

  ghost predicate SenderLosesNone(events: seq<Event>) {
    forall i :: 0 <= i < |events| && events[i].SenderActs? ==> !events[i].lost
  }

  /** The network holds a datagram of every packet transmitted. */
  ghost predicate AllThere(w: World) {
    forall n :: n in w.sender.slots && Count(w.sender.transmissions, n) > 0 ==>
      exists raw :: raw in w.data && Carries(raw, Data(n, w.sender.slots[n].payload))
  }

  /** So where no datagram of the sender is lost, one is on the network for every packet transmitted. */
  lemma {:induction false} NoneLostAllThere(u: Setup, events: seq<Event>)
    requires SetupOk(u) && SenderLosesNone(events)
    ensures AllThere(RunWorld(u, events))
    decreases |events|
  {
    hide Next, Invariant, AllThere;
    if events == [] {
      StartThere(u);
    } else {
      var front, e := events[..|events| - 1], events[|events| - 1];
      NoneLostAllThere(u, front);
      if e.SenderActs? {
        SenderThere(u, front, e.action);
      } else {
        OthersThere(u, RunWorld(u, front), e);
      }
    }
  }

  lemma StartThere(u: Setup)
    ensures AllThere(StartWorld(u))
  {
  }

  lemma SenderThere(u: Setup, events: seq<Event>, a: Action)
    requires SetupOk(u) && AllThere(RunWorld(u, events))
    ensures AllThere(Next(u, RunWorld(u, events), SenderActs(a, false)))
  {
    var w := RunWorld(u, events);
    var w' := Next(u, w, SenderActs(a, false));
    SenderKeepsPayloads(u, w, SenderActs(a, false));
    hide RunWorld, Next, Invariant, Decode;
    forall n | n in w'.sender.slots && Count(w'.sender.transmissions, n) > 0
      ensures exists raw :: raw in w'.data && Carries(raw, Data(n, w'.sender.slots[n].payload))
    {
      SenderPuts(u, events, a, false, n);
    }
  }

  /** Payloads do not change, data stays on the network, and a packet not registered has not been transmitted. */
  lemma SenderKeepsPayloads(u: Setup, w: World, e: Event)
    requires SetupOk(u) && Invariant(u, w)
    ensures var w' := Next(u, w, e);
      && w.data <= w'.data && KeepsPayloads(w.sender, w'.sender)
      && (forall n :: n !in w.sender.slots ==> Count(w.sender.transmissions, n) == 0)
  {
    hide AllData, ReceivedOk, AllAcks, AckedHeard, ReceiverOk, PermitsOk, SamplesOk, Step, Decode, EncodeData, EncodeAck;
    if e.SenderActs? {
      StepKeeps(u.config, w.sender, Actual(w.sender, e.action));
    } else if e.AckDelivered? && Decode(e.raw).Ok? && Decode(e.raw).value.Ack? {
      StepKeeps(u.config, w.sender, AckArrives(Decode(e.raw).value.seqNo, Decode(e.raw).value.rwnd));
    }
  }

  lemma OthersThere(u: Setup, w: World, e: Event)
    requires SetupOk(u) && Invariant(u, w) && AllThere(w) && !e.SenderActs?
    ensures AllThere(Next(u, w, e))
  {
    SenderKeepsPayloads(u, w, e);
    OthersCount(u, w, e);
    hide Next, Invariant, Decode;
  }

  lemma OthersCount(u: Setup, w: World, e: Event)
    requires SetupOk(u) && WindowOk(w.sender.window) && !e.SenderActs?
    ensures var w' := Next(u, w, e);
      w'.sender.transmissions == w.sender.transmissions && w'.sender.slots == w.sender.slots && w'.data == w.data
  {
    hide Decode, EncodeAck, Step;
    if e.AckDelivered? && Decode(e.raw).Ok? && Decode(e.raw).value.Ack? {
      ArrivalCounts(u.config, w.sender, Decode(e.raw).value.seqNo, Decode(e.raw).value.rwnd);
    }
  }

  lemma ArrivalCounts(cfg: Config, s: State, n: nat, rwnd: nat)
    requires WindowOk(s.window)
    ensures var t := Step(cfg, s, AckArrives(n, rwnd)); t.transmissions == s.transmissions && t.slots == s.slots
  {
  }

  // ----- what is acknowledged

  /** The receiver takes in every datagram that reaches it while it is not busy with another, and acknowledges it at once,
      known or not, with the number of handlers that can still be started. */
  lemma ReceiverAnswers(u: Setup, events: seq<Event>, raw: bytes, lost: bool)
    requires SetupOk(u)
    ensures var w := RunWorld(u, events);
      var w' := Next(u, w, DataDelivered(raw, lost));
      if raw in w.data && w.receiver.pending.None? then
        && Decode(raw).Ok? && Decode(raw).value.Data? && |w.receiver.running| <= u.maxQueue
        && var p := Decode(raw).value;
          && w' == w.(receiver := w.receiver.(pending := Some((p.seqNo, p.payload))), acks := w'.acks)
          && Gains(w.acks, w'.acks, Ack(p.seqNo, u.maxQueue - |w.receiver.running|), lost)
      else w' == w
  {
    hide Next, RunWorld, Decode, Gains, Sound, AllAcks, AckedHeard, ReceivedOk, Remembers, Spaced;
    RunWindow(u, events);
    ReceiverAnswersAt(u, RunWorld(u, events), raw, lost);
  }

  lemma ReceiverAnswersAt(u: Setup, w: World, raw: bytes, lost: bool)
    requires SetupOk(u) && WindowOk(w.sender.window) && AllData(w.sender, w.data) && |w.receiver.running| <= u.maxQueue
    ensures var w' := Next(u, w, DataDelivered(raw, lost));
      if raw in w.data && w.receiver.pending.None? then
        && Decode(raw).Ok? && Decode(raw).value.Data?
        && var p := Decode(raw).value;
          && w' == w.(receiver := w.receiver.(pending := Some((p.seqNo, p.payload))), acks := w'.acks)
          && Gains(w.acks, w'.acks, Ack(p.seqNo, u.maxQueue - |w.receiver.running|), lost)
      else w' == w
  {
    hide Decode, Gains, EncodeAck, Put;
    if raw in w.data {
      assert DataOk(w.sender, raw);
      DataNumberSmall(raw);
      AckGains(w.acks, Decode(raw).value.seqNo, u.maxQueue - |w.receiver.running|, lost);
    }
  }

  lemma DataNumberSmall(raw: bytes)
    requires Decode(raw).Ok? && Decode(raw).value.Data?
    ensures Decode(raw).value.seqNo < U32
  {
    U32Unpack(raw[1..5]);
  }

  lemma AckGains(net: set<bytes>, n: nat, room: int, lost: bool)
    requires n < U32 && 0 <= room < U16
    ensures Gains(net, Put(net, EncodeAck(n, room), lost), Ack(n, room), lost)
  {
    hide Decode;
    AckLayout(n, room);
    DecodeEncoded(n, [], room);
    if !lost { assert Carries(EncodeAck(n, room).value, Ack(n, room)); }
  }

  /** Numbers the receiver has to do with can be encoded. */
  ghost predicate SmallNumbers(r: Receiver) {
    && (forall i :: 0 <= i < |r.dispatched| ==> r.dispatched[i].0 < U32) && (r.pending.Some? ==> r.pending.value.0 < U32)
  }

  lemma {:induction false} RunSmall(u: Setup, events: seq<Event>)
    requires SetupOk(u)
    ensures SmallNumbers(RunWorld(u, events).receiver)
    decreases |events|
  {
    if events != [] {
      var front, e := events[..|events| - 1], events[|events| - 1];
      RunSmall(u, front);
      hide Invariant, Step;
      NextSmall(u, RunWorld(u, front), e);
    }
  }

  lemma NextSmall(u: Setup, w: World, e: Event)
    requires SetupOk(u) && WindowOk(w.sender.window) && SmallNumbers(w.receiver)
    ensures SmallNumbers(Next(u, w, e).receiver)
  {
    hide Decode, EncodeAck, Step;
    if e.DataDelivered? && Decode(e.raw).Ok? && Decode(e.raw).value.Data? { DataNumberSmall(e.raw); }
  }

  /** A handler that ends is acknowledged again, with the number that can be started then. */
  lemma HandlerAnswers(u: Setup, events: seq<Event>, i: nat, lost: bool)
    requires SetupOk(u)
    ensures var w := RunWorld(u, events);
      var w' := Next(u, w, HandlerEnds(i, lost));
      if i in w.receiver.running && i < |w.receiver.dispatched| then
        && w' == w.(receiver := w.receiver.(running := w.receiver.running - {i}, finished := w.receiver.finished + {i}), acks := w'.acks)
        && u.maxQueue - |w.receiver.running| + 1 >= 0
        && Gains(w.acks, w'.acks, Ack(w.receiver.dispatched[i].0, u.maxQueue - |w.receiver.running| + 1), lost)
      else w' == w
  {
    hide Next, RunWorld, Decode, Gains, Sound, AllData, AllAcks, AckedHeard, ReceivedOk, Remembers, Spaced;
    RunSmall(u, events);
    RunWindow(u, events);
    HandlerAnswersAt(u, RunWorld(u, events), i, lost);
  }

  lemma HandlerAnswersAt(u: Setup, w: World, i: nat, lost: bool)
    requires SetupOk(u) && WindowOk(w.sender.window) && SmallNumbers(w.receiver) && |w.receiver.running| <= u.maxQueue
    ensures var w' := Next(u, w, HandlerEnds(i, lost));
      if i in w.receiver.running && i < |w.receiver.dispatched| then
        && w' == w.(receiver := w.receiver.(running := w.receiver.running - {i}, finished := w.receiver.finished + {i}), acks := w'.acks)
        && Gains(w.acks, w'.acks, Ack(w.receiver.dispatched[i].0, u.maxQueue - |w.receiver.running| + 1), lost)
      else w' == w
  {
    hide Decode, Gains, EncodeAck, Put;
    if i in w.receiver.running && i < |w.receiver.dispatched| {
      Shrinks(w.receiver.running, i);
      AckGains(w.acks, w.receiver.dispatched[i].0, u.maxQueue - |w.receiver.running| + 1, lost);
    }
  }

  /** Nothing else acknowledges anything. */
  lemma OnlyTheseAnswer(u: Setup, w: World, e: Event)
    requires SetupOk(u) && WindowOk(w.sender.window)
    ensures !e.DataDelivered? && !e.HandlerEnds? ==> Next(u, w, e).acks == w.acks
    ensures !e.SenderActs? ==> Next(u, w, e).data == w.data
  {
    hide Decode, EncodeAck, EncodeData, Step;
  }

  /** A packet taken in is dispatched unless its number is among the last ones dispatched, as many as the window. */
  lemma DispatchesUnknown(u: Setup, events: seq<Event>)
    requires SetupOk(u) && RunWorld(u, events).receiver.pending.Some?
    ensures var r := RunWorld(u, events).receiver;
      var r' := Next(u, RunWorld(u, events), Dedups).receiver;
      var n := r.pending.value.0;
      && r'.pending.None? && r'.running == r.running && r'.finished == r.finished
      && var first := if |r.dispatched| > u.window then |r.dispatched| - u.window else 0;
        r'.dispatched == if exists i :: first <= i < |r.dispatched| && r.dispatched[i].0 == n then r.dispatched
                         else r.dispatched + [r.pending.value]
  {
    hide RunWorld, Sound, AllData, AllAcks, AckedHeard, ReceivedOk, Spaced, Evict;
    KnownExactly(RunWorld(u, events).receiver, u.window);
  }

  lemma KnownExactly(r: Receiver, window: nat)
    requires r.pending.Some? && Remembers(r, window)
    ensures var first := if |r.dispatched| > window then |r.dispatched| - window else 0;
      r.pending.value.0 in r.seen <==> exists i :: first <= i < |r.dispatched| && r.dispatched[i].0 == r.pending.value.0
  {
    var n, first := r.pending.value.0, if |r.dispatched| > window then |r.dispatched| - window else 0;
    var numbers := Numbers(r.dispatched);
    assert r.seen == numbers[first..];
    if n in r.seen {
      var k :| 0 <= k < |r.seen| && r.seen[k] == n;
      assert numbers[first + k] == n && r.dispatched[first + k].0 == n;
    }
    if i :| first <= i < |r.dispatched| && r.dispatched[i].0 == n {
      assert r.seen[i - first] == numbers[i];
    }
  }

  /** A handler is started for anything dispatched that has none yet, as long as there is room. */
  lemma HandlersStart(u: Setup, w: World, i: nat)
    requires SetupOk(u) && WindowOk(w.sender.window)
    ensures Next(u, w, HandlerStarts(i)) ==
      if i < |w.receiver.dispatched| && i !in w.receiver.running && i !in w.receiver.finished && |w.receiver.running| < u.maxQueue
      then w.(receiver := w.receiver.(running := w.receiver.running + {i})) else w
  {
  }

  // ----- an ack can always get through

  /** From every reachable state: a datagram of a packet in flight that is on the network can still reach the receiver, if
      that is not busy, and its ack the sender, if no other ack is being handled; the packet is then acked. */
  lemma CanBeAcked(u: Setup, events: seq<Event>, raw: bytes, n: nat) returns (longer: seq<Event>)
    requires SetupOk(u) && raw in RunWorld(u, events).data && Decode(raw).Ok? && Decode(raw).value.Data?
    requires n == Decode(raw).value.seqNo && n in RunWorld(u, events).sender.live
    requires RunWorld(u, events).receiver.pending.None? && RunWorld(u, events).sender.ack.AckIdle?
    ensures |longer| == |events| + 5 && longer[..|events|] == events
    ensures var w := RunWorld(u, longer);
      && n !in w.sender.live && n in w.sender.slots && w.sender.slots[n].state == Acked && w.sender.ack.AckIdle?
  {
    hide RunWorld, Next, Decode, Invariant, AckStep, Sound, Carries;
    var s := RunWorld(u, events).sender;
    var room, b := AckComes(u, events, raw, n);
    SenderSound(u, events);
    AckHandled(u.config, s, n, room);
    var c := AckThen(u, b, AckPops);
    var d := AckThen(u, c, AckSetsCwnd);
    longer := AckThen(u, d, AckReleases);
  }

  lemma SenderSound(u: Setup, events: seq<Event>)
    requires SetupOk(u)
    ensures Sound(u.config, RunWorld(u, events).sender)
  {
  }

  /** The datagram is delivered, and then its ack. */
  lemma AckComes(u: Setup, events: seq<Event>, raw: bytes, n: nat) returns (room: nat, longer: seq<Event>)
    requires SetupOk(u) && raw in RunWorld(u, events).data && Decode(raw).Ok? && Decode(raw).value.Data?
    requires n == Decode(raw).value.seqNo
    requires RunWorld(u, events).receiver.pending.None? && RunWorld(u, events).sender.ack.AckIdle?
    ensures |longer| == |events| + 2 && longer[..|events|] == events
    ensures WindowOk(RunWorld(u, events).sender.window)
    ensures RunWorld(u, longer).sender == AckStep(RunWorld(u, events).sender, AckArrives(n, room))
  {
    hide RunWorld, Next, Decode, Invariant, AckStep;
    var w := RunWorld(u, events);
    RunWindow(u, events);
    ReceiverAnswers(u, events, raw, false);
    room := u.maxQueue - |w.receiver.running|;
    var ack :| Carries(ack, Ack(n, room)) && Next(u, w, DataDelivered(raw, false)).acks == w.acks + {ack};
    var a := events + [DataDelivered(raw, false)];
    longer := a + [AckDelivered(ack)];
    OneMore(u, events, DataDelivered(raw, false));
    OneMore(u, a, AckDelivered(ack));
    RunWindow(u, a);
    AckReaches(u, RunWorld(u, a), ack, n);
  }

  lemma AckThen(u: Setup, events: seq<Event>, a: Action) returns (longer: seq<Event>)
    requires SetupOk(u) && (a == AckPops || a == AckSetsCwnd || a == AckReleases)
    ensures longer == events + [SenderActs(a, true)]
    ensures WindowOk(RunWorld(u, events).sender.window) && RunWorld(u, longer).sender == AckStep(RunWorld(u, events).sender, a)
  {
    hide AckStep, Invariant;
    longer := AndThen(u, events, a);
    RunWindow(u, events);
  }

  lemma RunWindow(u: Setup, events: seq<Event>)
    requires SetupOk(u)
    ensures WindowOk(RunWorld(u, events).sender.window)
  {
  }

  lemma AckReaches(u: Setup, w: World, ack: bytes, n: nat)
    requires SetupOk(u) && WindowOk(w.sender.window) && ack in w.acks && Decode(ack).Ok? && Decode(ack).value.Ack?
    requires Decode(ack).value.seqNo == n && w.sender.ack.AckIdle?
    ensures Next(u, w, AckDelivered(ack)).sender == AckStep(w.sender, AckArrives(n, Decode(ack).value.rwnd))
  {
    hide Decode, AckStep, ProducerStep, DogStep;
  }

  lemma AckHandled(cfg: Config, s: State, n: nat, rwnd: nat)
    requires Sound(cfg, s) && s.ack.AckIdle? && n in s.live
    ensures var a := AckStep(s, AckArrives(n, rwnd));
      && WindowOk(a.window)
      && var b := AckStep(a, AckPops);
        && WindowOk(b.window)
        && var c := AckStep(b, AckSetsCwnd);
          && WindowOk(c.window)
          && var d := AckStep(c, AckReleases);
            n !in d.live && n in d.slots && d.slots[n].state == Acked && d.ack.AckIdle?
  {
    InverseBound(s.window.cwnd);
  }

  lemma OneMore(u: Setup, events: seq<Event>, e: Event)
    requires SetupOk(u)
    ensures RunWorld(u, events + [e]) == Next(u, RunWorld(u, events), e)
  {
    hide Next, Invariant;
    assert (events + [e])[..|events|] == events;
  }

  // ----- a run that gets there

  /** Nothing is going on, and this is the next number. */
  ghost predicate Quiet(s: State, n: nat) {
    && s.producer.Idle? && s.ack.AckIdle? && s.next == n && s.live == {} && s.dogs == map[]
    && s.gate.inFlight == 0 && GateOk(s.gate)
  }

  /** One more step of the sender. */
  lemma AndThen(u: Setup, events: seq<Event>, a: Action) returns (longer: seq<Event>)
    requires SetupOk(u) && !a.AckArrives?
    ensures longer == events + [SenderActs(a, true)]
    ensures RunWorld(u, longer).sender == Step(u.config, RunWorld(u, events).sender, Actual(RunWorld(u, events).sender, a))
  {
    hide Step, Invariant;
    longer := events + [SenderActs(a, true)];
    assert longer[..|longer| - 1] == events;
  }

  lemma GivenUp(cfg: Config, s: State, n: nat)
    requires Quiet(s, n) && cfg.maxAttempts <= 1
    ensures var a := DogStep(cfg, Sent(s), DogTimesOut(n));
      Quiet(DogStep(cfg, DogStep(cfg, DogStep(cfg, a, DogGivesUp(n)), DogSetsCwnd(n)), DogReleases(n)), n + 1)
  {
    var a := DogStep(cfg, Sent(s), DogTimesOut(n));
    var b := DogStep(cfg, a, DogGivesUp(n));
    TimesOut(cfg, s, n);
    GivesUp(cfg, a, n);
    hide Sent;
    var c := DogStep(cfg, b, DogSetsCwnd(n));
    assert DogStep(cfg, c, DogReleases(n)).dogs == map[];
  }

  lemma TimesOut(cfg: Config, s: State, n: nat)
    requires Quiet(s, n) && cfg.maxAttempts <= 1
    ensures GivesUpOn(DogStep(cfg, Sent(s), DogTimesOut(n)), n)
    ensures DogStep(cfg, Sent(s), DogTimesOut(n)).dogs == map[n := GivingUp]
  {
  }

  lemma GivesUp(cfg: Config, s: State, n: nat)
    requires GivesUpOn(s, n) && s.dogs == map[n := GivingUp]
    ensures var t := DogStep(cfg, s, DogGivesUp(n));
      GivesUpOn(t.(live := {n}), n) && t.live == {} && t.dogs[n].LostCwnd?
  {
  }

  /** Only this packet, the last one, is in flight, and its watchdog is the only one. */
  ghost predicate GivesUpOn(s: State, n: nat) {
    && s.producer.Idle? && s.ack.AckIdle? && s.next == n + 1 && n in s.slots && s.live == {n} && s.dogs.Keys == {n}
    && s.gate.inFlight == 1 && GateOk(s.gate)
  }

  lemma SentAt(s: State, n: nat)
    requires Quiet(s, n)
    ensures ProducerStep(ProducerStep(ProducerStep(s, Send([])), Acquire), Register).producer == Registered(n)
    ensures n in ProducerStep(ProducerStep(ProducerStep(s, Send([])), Acquire), Register).slots
  {
  }

  lemma ProducerThen(u: Setup, events: seq<Event>, s: State, a: Action) returns (longer: seq<Event>)
    requires SetupOk(u) && RunWorld(u, events).sender == s && !AckAction(a) && !DogAction(a)
    requires a.Transmit? ==> a.encodable == (s.producer.Registered? && s.producer.n < U32)
    ensures RunWorld(u, longer).sender == ProducerStep(s, a)
  {
    hide RunWorld, ProducerStep, Invariant;
    longer := AndThen(u, events, a);
  }

  lemma DogThen(u: Setup, events: seq<Event>, s: State, a: Action) returns (longer: seq<Event>)
    requires SetupOk(u) && RunWorld(u, events).sender == s && DogAction(a)
    ensures RunWorld(u, longer).sender == DogStep(u.config, s, a)
  {
    hide RunWorld, DogStep, Invariant;
    longer := AndThen(u, events, a);
  }

  /** The next number is registered. */
  lemma RegisterNext(u: Setup, events: seq<Event>, s: State, n: nat) returns (longer: seq<Event>, t: State)
    requires SetupOk(u) && RunWorld(u, events).sender == s && Quiet(s, n)
    ensures t == ProducerStep(ProducerStep(ProducerStep(s, Send([])), Acquire), Register)
    ensures RunWorld(u, longer).sender == t && t.producer == Registered(n)
  {
    hide RunWorld, ProducerStep, Quiet, Invariant;
    SentAt(s, n);
    var a := ProducerStep(s, Send([]));
    var b := ProducerStep(a, Acquire);
    t := ProducerStep(b, Register);
    longer := ProducerThen(u, events, s, Send([]));
    longer := ProducerThen(u, longer, a, Acquire);
    longer := ProducerThen(u, longer, b, Register);
  }

  lemma SendNext(u: Setup, events: seq<Event>, s: State, n: nat) returns (longer: seq<Event>)
    requires SetupOk(u) && RunWorld(u, events).sender == s && Quiet(s, n) && n < U32
    ensures RunWorld(u, longer).sender == Sent(s)
  {
    hide RunWorld, ProducerStep, Quiet, Sent, Invariant, Sound;
    QuietSends(s, n);
    var t;
    longer, t := RegisterNext(u, events, s, n);
    longer := TransmitThen(u, longer, t, n);
    longer := ProducerThen(u, longer, ProducerStep(t, Transmit(true)), StartDog);
  }

  lemma QuietSends(s: State, n: nat)
    requires Quiet(s, n)
    ensures ProducerStep(ProducerStep(ProducerStep(ProducerStep(ProducerStep(s, Send([])), Acquire), Register),
                                      Transmit(true)), StartDog) == Sent(s)
  {
    SendSteps(s);
  }

  lemma TransmitThen(u: Setup, events: seq<Event>, s: State, n: nat) returns (longer: seq<Event>)
    requires SetupOk(u) && RunWorld(u, events).sender == s && s.producer == Registered(n)
    ensures RunWorld(u, longer).sender == ProducerStep(s, Transmit(n < U32))
  {
    hide RunWorld, ProducerStep, Invariant;
    longer := ProducerThen(u, events, s, Transmit(n < U32));
  }

  /** A packet is sent, and given up as soon as its time runs out. */
  lemma OneGivenUp(u: Setup, events: seq<Event>, n: nat) returns (longer: seq<Event>)
    requires SetupOk(u) && u.config.maxAttempts <= 1 && Quiet(RunWorld(u, events).sender, n) && n < U32
    ensures Quiet(RunWorld(u, longer).sender, n + 1)
  {
    hide RunWorld, DogStep, Quiet, Sent, Invariant;
    var s := RunWorld(u, events).sender;
    GivenUp(u.config, s, n);
    var a := DogStep(u.config, Sent(s), DogTimesOut(n));
    var b := DogStep(u.config, a, DogGivesUp(n));
    var c := DogStep(u.config, b, DogSetsCwnd(n));
    longer := SendNext(u, events, s, n);
    longer := DogThen(u, longer, Sent(s), DogTimesOut(n));
    longer := DogThen(u, longer, a, DogGivesUp(n));
    longer := DogThen(u, longer, b, DogSetsCwnd(n));
    longer := DogThen(u, longer, c, DogReleases(n));
  }

  /** With one attempt allowed, and no ack ever coming, every number up to 2^32 comes to be the next one. */
  lemma {:induction false} EachGivenUp(u: Setup, n: nat) returns (events: seq<Event>)
    requires SetupOk(u) && u.config.maxAttempts <= 1 && n <= U32
    ensures Quiet(RunWorld(u, events).sender, n)
    decreases n
  {
    if n == 0 {
      events := [];
    } else {
      events := EachGivenUp(u, n - 1);
      events := OneGivenUp(u, events, n - 1);
    }
  }

  /** So there is a run in which `send` fails for 2^32 and its packet stays in flight, without a watchdog. */
  lemma LastNumberReached(u: Setup) returns (events: seq<Event>)
    requires SetupOk(u) && u.config.maxAttempts <= 1
    ensures var s := RunWorld(u, events).sender; s.producer.Idle? && U32 in s.stuck && U32 in s.live && U32 !in s.dogs
  {
    hide RunWorld, Quiet, ProducerStep, Invariant, Sound;
    events := EachGivenUp(u, U32);
    var t;
    events, t := RegisterNext(u, events, RunWorld(u, events).sender, U32);
    events := TransmitThen(u, events, t, U32);
    GetsStuck(t, U32);
    IsStuck(u, events, U32);
  }

  lemma GetsStuck(s: State, n: nat)
    requires s.producer == Registered(n)
    ensures var t := ProducerStep(s, Transmit(false)); t.producer.Idle? && n in t.stuck
  {
  }

  lemma IsStuck(u: Setup, events: seq<Event>, n: nat)
    requires SetupOk(u) && n in RunWorld(u, events).sender.stuck
    ensures var s := RunWorld(u, events).sender; n in s.live && n !in s.dogs
  {
    hide RunWorld;
    LastNumber(u, events);
  }
}
