/** The sliding-window sender as a state machine. One step is one stretch of code between two suspension points:
    a producer that sends one payload at a time, one task that handles acks, and a watchdog per packet. */
module Sender {
  import opened Common
  import opened Congestion
  import opened MapSums

  datatype SlotState = InFlight | Acked | Lost

  datatype Slot = Slot(payload: bytes, attempts: nat, state: SlotState)

  /** Where the producer is in `send`. */
  datatype Producer =
    | Idle
    | Wanting(payload: bytes)
    | Parked(payload: bytes)
    | Acquired(payload: bytes)
    | Registered(n: nat)
    | Transmitted(n: nat)

  /** Where the ack task is in `handle_ack`. `cwnd` is the window value read before the task suspends to store it. */
  datatype AckTask = AckIdle | AckPop(n: nat) | AckCwnd(n: nat, cwnd: int) | AckRelease(n: nat)

  /** Where a watchdog is. `owned`: whether giving up was what took the packet out of flight. */
  datatype Dog =
    | Waiting
    | RetryCwnd(cwnd: int)
    | RetrySend
    | GivingUp
    | LostCwnd(owned: bool, cwnd: int)
    | LostRelease(owned: bool)

  /** `live` is the set of packets in flight; `slots` keeps every packet ever registered. `transmissions`, `sampled`
      (packets whose round trip was measured), `doubles` (releases of a permit no longer held) and `stuck` (packets
      whose `send` raised because they could not be encoded) only record what happened. */
  datatype State = State(
    gate: Gate, window: Cwnd, next: nat, slots: map<nat, Slot>, live: set<nat>,
    producer: Producer, ack: AckTask, dogs: map<nat, Dog>, transmissions: map<nat, nat>, sampled: set<nat>,
    doubles: nat, stuck: set<nat>)

  datatype Config = Config(maxAttempts: int, maxWindow: real)

  function Initial(cfg: Config): State {
    State(InitialGate, Cwnd(1.0, cfg.maxWindow, cfg.maxWindow), 0, map[], {}, Idle, AckIdle, map[], map[], {}, 0, {})
  }

  datatype Action =
    | Send(payload: bytes)
    | Acquire
    | Wake
    | Register
    | Transmit(encodable: bool)
    | StartDog
    | AckArrives(n: nat, rwnd: nat)
    | AckPops
    | AckSetsCwnd
    | AckReleases
    | DogSettles(n: nat)
    | DogTimesOut(n: nat)
    | DogSetsCwnd(n: nat)
    | DogResends(n: nat)
    | DogGivesUp(n: nat)
    | DogReleases(n: nat)

  function Count(m: map<nat, nat>, n: nat): nat { if n in m then m[n] else 0 }

  function Counted(m: map<nat, nat>, n: nat): map<nat, nat> { m[n := Count(m, n) + 1] }

  // ----- producer steps

  function ProducerStep(s: State, a: Action): State {
    match a
    case Send(payload) => if s.producer.Idle? then s.(producer := Wanting(payload)) else s
    case Acquire =>
      if !s.producer.Wanting? then s
      else if s.gate.inFlight < Effective(s.gate)
      then s.(gate := TryAcquire(s.gate), producer := Acquired(s.producer.payload))
      else s.(gate := TryAcquire(s.gate), producer := Parked(s.producer.payload))
    case Wake => if s.producer.Parked? && s.gate.open then s.(producer := Wanting(s.producer.payload)) else s
    case Register =>
      if !s.producer.Acquired? then s
      else s.(slots := s.slots[s.next := Slot(s.producer.payload, 1, InFlight)], live := s.live + {s.next},
              producer := Registered(s.next), next := s.next + 1)
    case Transmit(encodable) =>
      if !s.producer.Registered? then s
      else if !encodable then s.(producer := Idle, stuck := s.stuck + {s.producer.n})
      else s.(producer := Transmitted(s.producer.n), transmissions := Counted(s.transmissions, s.producer.n))
    case StartDog =>
      if !s.producer.Transmitted? then s
      else s.(producer := Idle, dogs := s.dogs[s.producer.n := Waiting])
    case _ => s
  }

  // ----- ack steps

  function AckStep(s: State, a: Action): State
    requires WindowOk(s.window)
  {
    match a
    case AckArrives(n, rwnd) => if s.ack.AckIdle? then s.(gate := SetRwnd(s.gate, rwnd), ack := AckPop(n)) else s
    case AckPops =>
      if !s.ack.AckPop? then s
      else if s.ack.n !in s.live then s.(ack := AckIdle)
      else
        var n, first := s.ack.n, s.ack.n in s.slots && s.slots[s.ack.n].attempts == 1;
        s.(live := s.live - {n}, sampled := if first then s.sampled + {n} else s.sampled, window := OnAck(s.window),
           ack := AckCwnd(n, WindowValue(OnAck(s.window))))
    case AckSetsCwnd =>
      if !s.ack.AckCwnd? || s.ack.n !in s.slots then s
      else s.(gate := SetCwnd(s.gate, s.ack.cwnd), ack := AckRelease(s.ack.n),
              slots := s.slots[s.ack.n := s.slots[s.ack.n].(state := Acked)])
    case AckReleases => if s.ack.AckRelease? then s.(gate := Release(s.gate), ack := AckIdle) else s
    case _ => s
  }

  // ----- watchdog steps

  function At(s: State, n: nat): Option<Dog> { if n in s.dogs && n in s.slots then Some(s.dogs[n]) else None }

  function DogStep(cfg: Config, s: State, a: Action): State {
    match a
    case DogSettles(n) => if At(s, n) == Some(Waiting) && n !in s.live then s.(dogs := s.dogs - {n}) else s
    case DogTimesOut(n) =>
      if At(s, n) != Some(Waiting) then s
      else if n !in s.live then s.(dogs := s.dogs - {n})
      else if s.slots[n].attempts >= cfg.maxAttempts then s.(dogs := s.dogs[n := GivingUp])
      else s.(slots := s.slots[n := s.slots[n].(attempts := s.slots[n].attempts + 1)],
              window := OnTimeoutLoss(s.window), dogs := s.dogs[n := RetryCwnd(WindowValue(OnTimeoutLoss(s.window)))])
    case DogSetsCwnd(n) =>
      if At(s, n).Some? && s.dogs[n].RetryCwnd? then
        s.(gate := SetCwnd(s.gate, s.dogs[n].cwnd), dogs := s.dogs[n := RetrySend])
      else if At(s, n).Some? && s.dogs[n].LostCwnd? then
        s.(gate := SetCwnd(s.gate, s.dogs[n].cwnd), dogs := s.dogs[n := LostRelease(s.dogs[n].owned)])
      else s
    case DogResends(n) =>
      if At(s, n) != Some(RetrySend) then s
      else s.(dogs := s.dogs[n := Waiting], transmissions := Counted(s.transmissions, n))
    case DogGivesUp(n) =>
      if At(s, n) != Some(GivingUp) then s
      else s.(live := s.live - {n}, slots := s.slots[n := s.slots[n].(state := Lost)],
              window := OnTimeoutLoss(s.window), dogs := s.dogs[n := LostCwnd(n in s.live, WindowValue(OnTimeoutLoss(s.window)))])
    case DogReleases(n) =>
      if At(s, n).Some? && s.dogs[n].LostRelease? then
        s.(gate := Release(s.gate), dogs := s.dogs - {n}, doubles := s.doubles + (if s.dogs[n].owned then 0 else 1))
      else s
    case _ => s
  }

  function Step(cfg: Config, s: State, a: Action): State
    requires WindowOk(s.window)
  {
    if a.AckArrives? || a.AckPops? || a.AckSetsCwnd? || a.AckReleases? then AckStep(s, a)
    else if a.DogSettles? || a.DogTimesOut? || a.DogSetsCwnd? || a.DogResends? || a.DogGivesUp? || a.DogReleases?
    then DogStep(cfg, s, a)
    else ProducerStep(s, a)
  }

  predicate DogAction(a: Action) {
    a.DogSettles? || a.DogTimesOut? || a.DogSetsCwnd? || a.DogResends? || a.DogGivesUp? || a.DogReleases?
  }

  predicate AckAction(a: Action) { a.AckArrives? || a.AckPops? || a.AckSetsCwnd? || a.AckReleases? }

  // ----- invariants

  /** The packet the producer has registered but not yet handed to a watchdog. */
  ghost predicate InHand(p: Producer, n: nat) { (p.Registered? || p.Transmitted?) && p.n == n }

  ghost predicate LiveDog(d: Dog) { !d.LostCwnd? && !d.LostRelease? }

  /** Every packet in flight has a watchdog that has not given up, or is in the producer's hands, or is stuck. */
  ghost predicate Watched(s: State) {
    && (forall n: nat :: n in s.slots <==> n < s.next)
    && (forall n :: n in s.live ==> n in s.slots)
    && (forall n :: n in s.dogs ==> n in s.slots && !InHand(s.producer, n))
    && (forall n :: n in s.stuck ==> n in s.slots && n !in s.dogs && !InHand(s.producer, n))
    && (forall n :: n in s.live && !InHand(s.producer, n) && n !in s.stuck ==> n in s.dogs && LiveDog(s.dogs[n]))
    && (forall n :: InHand(s.producer, n) ==> n in s.slots)
    && ((s.ack.AckCwnd? || s.ack.AckRelease?) ==> s.ack.n in s.slots && s.ack.n !in s.live)
  }

  lemma ProducerWatched(s: State, a: Action)
    requires Watched(s)
    ensures Watched(ProducerStep(s, a))
  {
    hide Watched, ProducerStep;
    if a.Register? { RegisterWatched(s); } else { HandOverWatched(s, a); }
  }

  lemma RegisterWatched(s: State)
    requires Watched(s)
    ensures Watched(ProducerStep(s, Register))
  {
  }

  lemma HandOverWatched(s: State, a: Action)
    requires Watched(s) && !a.Register?
    ensures Watched(ProducerStep(s, a))
  {
  }

  lemma AckWatched(s: State, a: Action)
    requires Watched(s) && WindowOk(s.window)
    ensures Watched(AckStep(s, a))
  {
  }

  lemma DogWatched(cfg: Config, s: State, a: Action)
    requires Watched(s)
    ensures Watched(DogStep(cfg, s, a))
  {
  }

  // ----- permits

  ghost predicate Owes(d: Dog) { (d.LostCwnd? || d.LostRelease?) && d.owned }

  /** Watchdogs that took their packet out of flight and have yet to release its permit. */
  ghost function Owing(dogs: map<nat, Dog>): set<nat> {
    set n | n in dogs && Owes(dogs[n])
  }

  /** Sends that have acquired a permit and not released it. */
  ghost function Holders(s: State): nat {
    |s.live| + (if s.producer.Acquired? then 1 else 0) + (if s.ack.AckCwnd? || s.ack.AckRelease? then 1 else 0)
    + |Owing(s.dogs)|
  }

  ghost predicate PermitsOk(s: State) {
    s.gate.inFlight <= Holders(s) <= s.gate.inFlight + s.doubles
  }

  ghost function One(b: bool): nat { if b then 1 else 0 }

  lemma OwingDrop(dogs: map<nat, Dog>, n: nat)
    ensures |Owing(dogs - {n})| == |Owing(dogs)| - One(n in dogs && Owes(dogs[n]))
  {
    assert Owing(dogs - {n}) == Owing(dogs) - {n};
    LiveDrop(Owing(dogs), n);
  }

  lemma OwingPut(dogs: map<nat, Dog>, n: nat, d: Dog)
    ensures |Owing(dogs[n := d])| == |Owing(dogs)| - One(n in dogs && Owes(dogs[n])) + One(Owes(d))
    ensures n in dogs ==> |Owing(dogs - {n})| == |Owing(dogs)| - One(Owes(dogs[n]))
  {
    OwingDrop(dogs, n);
    OwingDrop(dogs[n := d], n);
    assert dogs[n := d] - {n} == dogs - {n};
  }

  lemma LiveDrop(live: set<nat>, n: nat)
    ensures |live - {n}| == |live| - One(n in live) && |live + {n}| == |live| + One(n !in live)
  {
    if n in live { assert live == (live - {n}) + {n} && live + {n} == live; } else { assert live - {n} == live; }
  }

  lemma ProducerPermits(s: State, a: Action)
    requires Watched(s) && PermitsOk(s)
    ensures PermitsOk(ProducerStep(s, a))
  {
    hide Watched, ProducerStep, Holders;
    ProducerBalance(s, a);
  }

  /** The producer takes permits one by one, and passes on what it took. */
  lemma ProducerBalance(s: State, a: Action)
    requires Watched(s)
    ensures var t := ProducerStep(s, a);
      Holders(t) - Holders(s) == t.gate.inFlight - s.gate.inFlight && t.doubles == s.doubles
  {
    hide Watched, ProducerStep, Owing;
    if a.Register? {
      RegisterBalance(s);
    } else if a.StartDog? {
      DogBalance(s);
    } else {
      OtherBalance(s, a);
    }
  }

  lemma RegisterBalance(s: State)
    requires Watched(s)
    ensures var t := ProducerStep(s, Register); Holders(t) == Holders(s) && t.gate == s.gate && t.doubles == s.doubles
  {
    hide Owing;
    LiveDrop(s.live, s.next);
  }

  lemma DogBalance(s: State)
    requires Watched(s)
    ensures var t := ProducerStep(s, StartDog); Holders(t) == Holders(s) && t.gate == s.gate && t.doubles == s.doubles
  {
    hide Owing;
    if s.producer.Transmitted? { OwingPut(s.dogs, s.producer.n, Waiting); }
  }

  lemma OtherBalance(s: State, a: Action)
    requires !a.Register? && !a.StartDog?
    ensures var t := ProducerStep(s, a);
      && t.live == s.live && t.dogs == s.dogs && t.ack == s.ack && t.doubles == s.doubles
      && One(t.producer.Acquired?) - One(s.producer.Acquired?) == t.gate.inFlight - s.gate.inFlight
  {
  }

  lemma AckPermits(s: State, a: Action)
    requires Watched(s) && PermitsOk(s) && WindowOk(s.window)
    ensures PermitsOk(AckStep(s, a))
  {
    hide Owing, Watched;
    if a.AckPops? && s.ack.AckPop? { LiveDrop(s.live, s.ack.n); }
  }

  lemma NotDogAction(cfg: Config, s: State, a: Action)
    ensures !DogAction(a) ==> DogStep(cfg, s, a) == s
  {
  }

  lemma DogPermits(cfg: Config, s: State, a: Action)
    requires Watched(s) && PermitsOk(s)
    ensures PermitsOk(DogStep(cfg, s, a))
  {
    hide Owing, Watched, DogStep;
    NotDogAction(cfg, s, a);
    if DogStep(cfg, s, a) == s { return; }
    var t, n := DogStep(cfg, s, a), a.n;
    OwingPut(s.dogs, n, if n in t.dogs then t.dogs[n] else Waiting);
    LiveDrop(s.live, n);
    DogStepShape(cfg, s, a);
    DogStepBalance(cfg, s, a);
  }

  /** How a watchdog step moves permits: what it takes out of flight it owes, and what it releases it no longer owes. */
  lemma DogStepBalance(cfg: Config, s: State, a: Action)
    requires DogAction(a) && Watched(s) && DogStep(cfg, s, a) != s
    ensures var t, n := DogStep(cfg, s, a), a.n;
      var owed, owes := n in s.dogs && Owes(s.dogs[n]), n in t.dogs && Owes(t.dogs[n]);
      && (t.live == s.live || t.live == s.live - {n})
      && (a.DogReleases? ==> t.live == s.live && !owes && t.gate == Release(s.gate) && t.doubles == s.doubles + One(!owed))
      && (!a.DogReleases? ==> t.gate.inFlight == s.gate.inFlight && t.doubles == s.doubles
                              && One(n in t.live) + One(owes) == One(n in s.live) + One(owed))
  {
  }

  /** A watchdog step concerns one packet. */
  lemma DogStepShape(cfg: Config, s: State, a: Action)
    requires DogAction(a) && DogStep(cfg, s, a) != s
    ensures var t, n := DogStep(cfg, s, a), a.n;
      && n in s.dogs && n in s.slots && n in t.slots && t.producer == s.producer && t.ack == s.ack
      && t.slots == s.slots[n := t.slots[n]]
      && t.dogs == (if n in t.dogs then s.dogs[n := t.dogs[n]] else s.dogs - {n})
  {
  }

  // ----- parking

  ghost predicate ParkOk(s: State) {
    && GateOk(s.gate) && WindowOk(s.window)
    && (!s.gate.open ==> s.producer.Parked? && s.gate.inFlight >= Effective(s.gate))
  }

  lemma StepParks(cfg: Config, s: State, a: Action)
    requires ParkOk(s)
    ensures ParkOk(Step(cfg, s, a))
  {
    InverseBound(s.window.cwnd);
  }

  // ----- attempts

  ghost function Pending(s: State, n: nat): nat {
    if s.producer == Registered(n) || n in s.stuck || (n in s.dogs && (s.dogs[n].RetryCwnd? || s.dogs[n].RetrySend?))
    then 1 else 0
  }

  function AttemptLimit(cfg: Config): int { if cfg.maxAttempts > 1 then cfg.maxAttempts else 1 }

  /** Every attempt is one transmission, made or about to be made. */
  ghost predicate TriesOk(cfg: Config, s: State) {
    && (forall n :: n in s.slots ==> Count(s.transmissions, n) + Pending(s, n) == s.slots[n].attempts <= AttemptLimit(cfg))
    && (forall n :: n in s.transmissions ==> n in s.slots)
  }

  ghost predicate TryOk(cfg: Config, s: State, n: nat) {
    && (n in s.slots ==> Count(s.transmissions, n) + Pending(s, n) == s.slots[n].attempts <= AttemptLimit(cfg))
    && (n in s.transmissions ==> n in s.slots)
  }

  lemma ProducerTries(cfg: Config, s: State, a: Action)
    requires Watched(s) && TriesOk(cfg, s)
    ensures TriesOk(cfg, ProducerStep(s, a))
  {
    var t := ProducerStep(s, a);
    forall n | n in t.slots || n in t.transmissions ensures TryOk(cfg, t, n) {
      ProducerTry(cfg, s, a, n);
    }
  }

  lemma ProducerTry(cfg: Config, s: State, a: Action, n: nat)
    requires Watched(s) && TryOk(cfg, s, n)
    ensures TryOk(cfg, ProducerStep(s, a), n)
  {
  }

  lemma AckTries(cfg: Config, s: State, a: Action)
    requires Watched(s) && TriesOk(cfg, s) && WindowOk(s.window)
    ensures TriesOk(cfg, AckStep(s, a))
  {
  }

  lemma DogTries(cfg: Config, s: State, a: Action)
    requires Watched(s) && TriesOk(cfg, s)
    ensures TriesOk(cfg, DogStep(cfg, s, a))
  {
    var t := DogStep(cfg, s, a);
    forall n | n in t.slots || n in t.transmissions ensures TryOk(cfg, t, n) {
      DogTry(cfg, s, a, n);
    }
  }

  lemma DogTry(cfg: Config, s: State, a: Action, n: nat)
    requires Watched(s) && TryOk(cfg, s, n)
    ensures TryOk(cfg, DogStep(cfg, s, a), n)
  {
  }

  // ----- runs

  /** A packet whose round trip was measured has had one attempt, and is in flight no more. */
  ghost predicate SamplesOk(s: State) {
    forall n :: n in s.sampled ==> n in s.slots && s.slots[n].attempts == 1 && n !in s.live
  }

  lemma StepSamples(cfg: Config, s: State, a: Action)
    requires Watched(s) && WindowOk(s.window) && SamplesOk(s)
    ensures SamplesOk(ProducerStep(s, a)) && SamplesOk(AckStep(s, a)) && SamplesOk(DogStep(cfg, s, a))
  {
  }

  ghost predicate Sound(cfg: Config, s: State) {
    Watched(s) && PermitsOk(s) && ParkOk(s) && TriesOk(cfg, s) && SamplesOk(s)
  }

  lemma StepSound(cfg: Config, s: State, a: Action)
    requires Sound(cfg, s)
    ensures Sound(cfg, Step(cfg, s, a))
  {
    hide Watched, PermitsOk, TriesOk, SamplesOk, ProducerStep, AckStep, DogStep;
    StepParks(cfg, s, a);
    StepSamples(cfg, s, a);
    ProducerWatched(s, a);
    AckWatched(s, a);
    DogWatched(cfg, s, a);
    ProducerPermits(s, a);
    AckPermits(s, a);
    DogPermits(cfg, s, a);
    ProducerTries(cfg, s, a);
    AckTries(cfg, s, a);
    DogTries(cfg, s, a);
  }

  lemma InitialSound(cfg: Config)
    requires cfg.maxWindow >= 1.0
    ensures Sound(cfg, Initial(cfg))
  {
    assert Owing(map[]) == {};
  }

  /** The state after a sequence of steps; a step that is not possible changes nothing. */
  ghost function Exec(cfg: Config, s: State, acts: seq<Action>): (t: State)
    requires Sound(cfg, s)
    ensures Sound(cfg, t)
    decreases |acts|
  {
    if acts == [] then s
    else
      StepSound(cfg, s, acts[0]);
      Exec(cfg, Step(cfg, s, acts[0]), acts[1..])
  }

  ghost function Run(cfg: Config, acts: seq<Action>): (s: State)
    requires cfg.maxWindow >= 1.0
    ensures WindowOk(s.window)
  {
    InitialSound(cfg);
    Exec(cfg, Initial(cfg), acts)
  }

  lemma RunSound(cfg: Config, acts: seq<Action>)
    requires cfg.maxWindow >= 1.0
    ensures Sound(cfg, Run(cfg, acts))
  {
    InitialSound(cfg);
  }

  /** In every run the gate never counts more permits than are held, and exactly those unless some packet's
      permit was released twice. */
  lemma PermitsNeverLeak(cfg: Config, acts: seq<Action>)
    requires cfg.maxWindow >= 1.0
    ensures var s := Run(cfg, acts);
      s.gate.inFlight <= Holders(s) <= s.gate.inFlight + s.doubles && (s.doubles == 0 ==> s.gate.inFlight == Holders(s))
  {
    RunSound(cfg, acts);
  }

  /** The gate counts each permit held, and no other. */
  ghost predicate Exact(s: State) { s.gate.inFlight == Holders(s) }

  /** A watchdog that gave up on a packet no longer in flight releases a permit while the gate still counts one. */
  predicate ReleasesTwice(s: State, a: Action) {
    a.DogReleases? && At(s, a.n).Some? && s.dogs[a.n] == LostRelease(false) && s.gate.inFlight > 0
  }

  lemma ProducerExact(s: State, a: Action)
    requires Watched(s) && Exact(s)
    ensures Exact(ProducerStep(s, a))
  {
    hide Watched, ProducerStep, Holders;
    ProducerBalance(s, a);
  }

  lemma AckExact(s: State, a: Action)
    requires Watched(s) && Exact(s) && WindowOk(s.window)
    ensures Exact(AckStep(s, a))
  {
    hide Owing, Watched;
    if a.AckPops? && s.ack.AckPop? { LiveDrop(s.live, s.ack.n); }
  }

  lemma DogExact(cfg: Config, s: State, a: Action)
    requires DogAction(a) && Watched(s) && Exact(s)
    ensures Exact(DogStep(cfg, s, a)) <==> !ReleasesTwice(s, a)
  {
    hide Owing, Watched, DogStep;
    if DogStep(cfg, s, a) == s {
      DogIdles(cfg, s, a);
      return;
    }
    DogTakes(cfg, s, a);
    var t, n := DogStep(cfg, s, a), a.n;
    OwingPut(s.dogs, n, if n in t.dogs then t.dogs[n] else Waiting);
    LiveDrop(s.live, n);
    DogStepShape(cfg, s, a);
    DogStepBalance(cfg, s, a);
    if n in s.dogs && Owes(s.dogs[n]) { OwingSome(s.dogs, n); }
  }

  /** A watchdog that releases owes its permit unless its packet was taken from it. */
  lemma DogTakes(cfg: Config, s: State, a: Action)
    requires DogAction(a) && DogStep(cfg, s, a) != s
    ensures a.DogReleases? ==> a.n in s.dogs && a.n in s.slots && (Owes(s.dogs[a.n]) <==> s.dogs[a.n] != LostRelease(false))
  {
  }

  lemma DogIdles(cfg: Config, s: State, a: Action)
    requires DogAction(a) && DogStep(cfg, s, a) == s
    ensures !ReleasesTwice(s, a)
  {
  }

  lemma OwingSome(dogs: map<nat, Dog>, n: nat)
    requires n in dogs && Owes(dogs[n])
    ensures |Owing(dogs)| > 0
  {
    assert n in Owing(dogs);
  }

  /** A step keeps the count exact exactly when it is not such a release. */
  lemma StepExact(cfg: Config, s: State, a: Action)
    requires Sound(cfg, s) && Exact(s)
    ensures Exact(Step(cfg, s, a)) <==> !ReleasesTwice(s, a)
  {
    hide Watched, PermitsOk, TriesOk, SamplesOk, ProducerStep, AckStep, DogStep, Exact;
    if DogAction(a) { DogExact(cfg, s, a); } else if AckAction(a) { AckExact(s, a); } else { ProducerExact(s, a); }
  }

  /** The count is exact in every state of the run. */
  ghost predicate ExactThroughout(cfg: Config, s: State, acts: seq<Action>)
    requires Sound(cfg, s)
    decreases |acts|
  {
    Exact(s) && (acts == [] || (StepSound(cfg, s, acts[0]); ExactThroughout(cfg, Step(cfg, s, acts[0]), acts[1..])))
  }

  /** No step of the run is such a release. */
  ghost predicate NoneReleasesTwice(cfg: Config, s: State, acts: seq<Action>)
    requires Sound(cfg, s)
    decreases |acts|
  {
    acts == [] || (!ReleasesTwice(s, acts[0])
                   && (StepSound(cfg, s, acts[0]); NoneReleasesTwice(cfg, Step(cfg, s, acts[0]), acts[1..])))
  }

  lemma {:induction false} ExactExactly(cfg: Config, s: State, acts: seq<Action>)
    requires Sound(cfg, s) && Exact(s)
    ensures ExactThroughout(cfg, s, acts) <==> NoneReleasesTwice(cfg, s, acts)
    decreases |acts|
  {
    hide Watched, PermitsOk, TriesOk, SamplesOk, Step, Exact, ReleasesTwice;
    if acts != [] {
      StepSound(cfg, s, acts[0]);
      StepExact(cfg, s, acts[0]);
      if Exact(Step(cfg, s, acts[0])) {
        ExactExactly(cfg, Step(cfg, s, acts[0]), acts[1..]);
      } else {
        NotExactAfter(cfg, s, acts);
      }
    }
  }

  lemma NotExactAfter(cfg: Config, s: State, acts: seq<Action>)
    requires Sound(cfg, s) && acts != [] && !Exact(Step(cfg, s, acts[0]))
    ensures !ExactThroughout(cfg, s, acts)
  {
    StepSound(cfg, s, acts[0]);
    hide Sound, Step, Exact;
  }

  /** In every run the gate counts exactly the permits held, all the time, exactly when no watchdog that gave up on a
      packet no longer in flight releases a permit while the gate counts one. */
  lemma PermitsExact(cfg: Config, acts: seq<Action>)
    requires cfg.maxWindow >= 1.0
    ensures Sound(cfg, Initial(cfg))
    ensures ExactThroughout(cfg, Initial(cfg), acts) <==> NoneReleasesTwice(cfg, Initial(cfg), acts)
  {
    InitialSound(cfg);
    assert Exact(Initial(cfg)) by { NoneOwing(map[]); }
    hide Sound, Exact, Initial;
    ExactExactly(cfg, Initial(cfg), acts);
  }

  /** Something that will release a permit: a packet in flight under a live watchdog, or a release under way. */
  ghost predicate WillRelease(s: State, n: nat) {
    || (n in s.live && n in s.dogs && LiveDog(s.dogs[n]))
    || ((s.ack.AckCwnd? || s.ack.AckRelease?) && s.ack.n == n)
    || n in Owing(s.dogs)
  }

  /** A producer waiting on an unset event finds the window full; and some packet whose permit will be released, exactly
      when not all the permits are held by packets that are stuck. */
  lemma NoDeadlock(cfg: Config, acts: seq<Action>)
    requires cfg.maxWindow >= 1.0
    requires Run(cfg, acts).producer.Parked? && !Run(cfg, acts).gate.open
    ensures Run(cfg, acts).gate.inFlight >= Effective(Run(cfg, acts).gate) >= 1
    ensures (exists n :: WillRelease(Run(cfg, acts), n)) <==> Holders(Run(cfg, acts)) != |Run(cfg, acts).live * Run(cfg, acts).stuck|
    ensures Run(cfg, acts).stuck == {} ==> exists n :: WillRelease(Run(cfg, acts), n)
  {
    RunSound(cfg, acts);
    hide Run;
    var s := Run(cfg, acts);
    SomeRelease(s);
    if s.stuck == {} { assert s.live * s.stuck == {}; }
  }

  lemma SomeRelease(s: State)
    requires Watched(s) && s.producer.Parked?
    ensures (exists n :: WillRelease(s, n)) <==> Holders(s) != |s.live * s.stuck|
  {
    LivePart(s.live, s.stuck);
    if n :| n in s.live && n !in s.stuck {
      assert WillRelease(s, n);
    } else if s.ack.AckCwnd? || s.ack.AckRelease? {
      assert WillRelease(s, s.ack.n);
    } else if n :| n in Owing(s.dogs) {
      assert WillRelease(s, n);
    } else {
      assert Owing(s.dogs) == {} && s.live * s.stuck == s.live;
    }
  }

  lemma LivePart(live: set<nat>, stuck: set<nat>)
    ensures |live * stuck| <= |live| && (|live * stuck| == |live| <==> live <= stuck)
  {
    assert live == live * stuck + (live - stuck);
  }

  /** When all permits are held by stuck packets the producer waits for ever: a send that raises in a window of one, and
      the next. */
  lemma StuckWindow(payload: bytes, other: bytes) returns (acts: seq<Action>)
    ensures var s := Run(Config(1, 64.0), acts);
      s.producer == Parked(other) && !s.gate.open && s.live == {0} == s.stuck && !exists n :: WillRelease(s, n)
  {
    var cfg := Config(1, 64.0);
    InitialSound(cfg);
    assert Run(cfg, []) == Initial(cfg);
    StuckSteps(payload, other);
    hide Run, Step, Initial;
    acts := Then(cfg, [], Send(payload));
    acts := Then(cfg, acts, Acquire);
    acts := Then(cfg, acts, Register);
    acts := Then(cfg, acts, Transmit(false));
    acts := Then(cfg, acts, Send(other));
    acts := Then(cfg, acts, Acquire);
  }

  lemma StuckSteps(payload: bytes, other: bytes)
    ensures var cfg := Config(1, 64.0);
      var sent := Step(cfg, Step(cfg, Step(cfg, Step(cfg, Initial(cfg), Send(payload)), Acquire), Register), Transmit(false));
      var s := Step(cfg, Step(cfg, sent, Send(other)), Acquire);
      s.producer == Parked(other) && !s.gate.open && s.live == {0} == s.stuck && !exists n :: WillRelease(s, n)
  {
  }

  /** No packet is transmitted more often than allowed. */
  lemma TransmissionsBounded(cfg: Config, acts: seq<Action>, n: nat)
    requires cfg.maxWindow >= 1.0
    ensures Count(Run(cfg, acts).transmissions, n) <= AttemptLimit(cfg)
  {
    RunSound(cfg, acts);
    var s := Run(cfg, acts);
    if n in s.transmissions { assert n in s.slots; }
  }

  /** Karn's rule (section 3 of RFC 6298): in every run a packet whose round trip has been measured was transmitted
      once at most, before the measurement and ever after. */
  lemma KarnsRule(cfg: Config, acts: seq<Action>, n: nat)
    requires cfg.maxWindow >= 1.0 && n in Run(cfg, acts).sampled
    ensures Count(Run(cfg, acts).transmissions, n) <= 1
  {
    RunSound(cfg, acts);
    var s := Run(cfg, acts);
    assert n in s.slots && s.slots[n].attempts == 1;
  }

  // ----- what moves window, gate and flight, in numbers

  /** A step raises the number of attempts of this packet: its watchdog has timed out and will send it again. */
  ghost predicate Retries(s: State, t: State, n: nat) {
    n in s.slots && n in t.slots && t.slots[n].attempts > s.slots[n].attempts
  }

  /** Half a window, but two packets at least. */
  function Half(w: Cwnd): real { if w.cwnd >= 4.0 then w.cwnd / 2.0 else 2.0 }

  /** A packet is tried once more exactly when its time runs out while it is in flight and has attempts left. The window is
      then one packet, the threshold half the old window but two at least, and the gate is to get one. */
  lemma RetryNumbers(cfg: Config, s: State, a: Action, n: nat)
    requires Sound(cfg, s)
    ensures var t := Step(cfg, s, a);
      && (Retries(s, t, n) <==> a == DogTimesOut(n) && n in s.dogs && s.dogs[n] == Waiting && n in s.live
                                && s.slots[n].attempts < cfg.maxAttempts)
      && (Retries(s, t, n) ==>
            && t.slots[n].attempts == s.slots[n].attempts + 1 && t.window == Cwnd(1.0, Half(s.window), s.window.max)
            && n in t.dogs && t.dogs[n] == RetryCwnd(1) && t.live == s.live && t.gate == s.gate)
  {
    hide ProducerStep, AckStep, DogStep, PermitsOk, TriesOk, SamplesOk;
    if AckAction(a) { AckRetriesNone(s, a, n); } else if DogAction(a) { DogRetries(cfg, s, a, n); } else { ProducerRetriesNone(s, a, n); }
  }

  lemma AckRetriesNone(s: State, a: Action, n: nat)
    requires WindowOk(s.window)
    ensures !Retries(s, AckStep(s, a), n)
  {
  }

  lemma ProducerRetriesNone(s: State, a: Action, n: nat)
    requires Watched(s)
    ensures !Retries(s, ProducerStep(s, a), n)
  {
  }

  lemma DogRetries(cfg: Config, s: State, a: Action, n: nat)
    requires Watched(s)
    ensures var t := DogStep(cfg, s, a);
      && (Retries(s, t, n) <==> a == DogTimesOut(n) && n in s.dogs && s.dogs[n] == Waiting && n in s.live
                                && s.slots[n].attempts < cfg.maxAttempts)
      && (Retries(s, t, n) ==>
            && t.slots[n].attempts == s.slots[n].attempts + 1 && t.window == Cwnd(1.0, Half(s.window), s.window.max)
            && n in t.dogs && t.dogs[n] == RetryCwnd(1) && t.live == s.live && t.gate == s.gate)
  {
  }

  /** It is given up exactly when its time has run out with no attempts left; the window goes the same way. */
  lemma GiveUpNumbers(cfg: Config, s: State, n: nat)
    requires Sound(cfg, s)
    ensures n in s.dogs && s.dogs[n] == Waiting && n in s.live && s.slots[n].attempts >= cfg.maxAttempts ==>
      Step(cfg, s, DogTimesOut(n)) == s.(dogs := s.dogs[n := GivingUp])
    ensures n in s.dogs && s.dogs[n] == GivingUp ==>
      var t := Step(cfg, s, DogGivesUp(n));
      && t.live == s.live - {n} && t.window == Cwnd(1.0, Half(s.window), s.window.max)
      && t.dogs == s.dogs[n := LostCwnd(n in s.live, 1)] && n in t.slots && t.slots[n].state == Lost
  {
  }

  /** A watchdog that waits returns as soon as its packet is out of flight, at the latest when its time runs out, and does
      nothing else. */
  lemma SettleNumbers(cfg: Config, s: State, n: nat)
    requires Sound(cfg, s)
    ensures var done := n in s.dogs && s.dogs[n] == Waiting && n !in s.live;
      && Step(cfg, s, DogSettles(n)) == (if done then s.(dogs := s.dogs - {n}) else s)
      && (done ==> Step(cfg, s, DogTimesOut(n)) == s.(dogs := s.dogs - {n}))
  {
  }

  /** What an ack does: one for a packet in flight takes it out, grows the window by one below the threshold and by its
      inverse from there on, not beyond the maximum, and takes a sample exactly if the packet was tried once; one for
      any other packet does nothing more. */
  lemma AckNumbers(cfg: Config, s: State)
    requires Sound(cfg, s) && s.ack.AckPop?
    ensures var t, n := Step(cfg, s, AckPops), s.ack.n;
      if n !in s.live then t == s.(ack := AckIdle)
      else
        var grown := s.window.cwnd + (if s.window.cwnd < s.window.ssthresh then 1.0 else 1.0 / s.window.cwnd);
        var cwnd := if grown < s.window.max then grown else s.window.max;
        && t.live == s.live - {n} && t.window == Cwnd(cwnd, s.window.ssthresh, s.window.max)
        && t.ack == AckCwnd(n, cwnd.Floor)
        && n in s.slots && t.sampled == (if s.slots[n].attempts == 1 then s.sampled + {n} else s.sampled)
  {
    InverseBound(s.window.cwnd);
  }

  /** Who moves the windows of the gate, and to what: an ack that arrives sets the receiver's, not below one; an ack that
      has taken out its packet, and a watchdog after a timeout, store the window they have read. Nobody else does. */
  lemma GateNumbers(cfg: Config, s: State, a: Action)
    requires Sound(cfg, s)
    ensures var t := Step(cfg, s, a);
      && t.gate.rwnd == (if a.AckArrives? && s.ack.AckIdle? then (if a.rwnd < 1 then 1 else a.rwnd) else s.gate.rwnd)
      && t.gate.cwnd ==
        (if a.AckSetsCwnd? && s.ack.AckCwnd? then (if s.ack.cwnd < 1 then 1 else s.ack.cwnd)
         else if a.DogSetsCwnd? && a.n in s.dogs && s.dogs[a.n].RetryCwnd? then (if s.dogs[a.n].cwnd < 1 then 1 else s.dogs[a.n].cwnd)
         else if a.DogSetsCwnd? && a.n in s.dogs && s.dogs[a.n].LostCwnd? then (if s.dogs[a.n].cwnd < 1 then 1 else s.dogs[a.n].cwnd)
         else s.gate.cwnd)
      && (t.gate.inFlight > s.gate.inFlight ==>
            a == Acquire && s.gate.inFlight < s.gate.cwnd && s.gate.inFlight < s.gate.rwnd && t.gate.inFlight == s.gate.inFlight + 1)
  {
    hide ProducerStep, AckStep, DogStep, Watched, PermitsOk, TriesOk, SamplesOk;
    ProducerGate(s, a);
    AckGate(s, a);
    DogGate(cfg, s, a);
  }

  lemma ProducerGate(s: State, a: Action)
    requires ParkOk(s)
    ensures var t := ProducerStep(s, a);
      && t.gate.rwnd == s.gate.rwnd && t.gate.cwnd == s.gate.cwnd
      && (t.gate.inFlight > s.gate.inFlight ==>
            a == Acquire && s.gate.inFlight < s.gate.cwnd && s.gate.inFlight < s.gate.rwnd && t.gate.inFlight == s.gate.inFlight + 1)
  {
  }

  lemma AckGate(s: State, a: Action)
    requires Watched(s) && ParkOk(s)
    ensures var t := AckStep(s, a);
      && t.gate.rwnd == (if a.AckArrives? && s.ack.AckIdle? then (if a.rwnd < 1 then 1 else a.rwnd) else s.gate.rwnd)
      && t.gate.cwnd == (if a.AckSetsCwnd? && s.ack.AckCwnd? then (if s.ack.cwnd < 1 then 1 else s.ack.cwnd) else s.gate.cwnd)
      && t.gate.inFlight <= s.gate.inFlight
  {
  }

  lemma DogGate(cfg: Config, s: State, a: Action)
    requires Watched(s)
    ensures var t := DogStep(cfg, s, a);
      && t.gate.rwnd == s.gate.rwnd && t.gate.inFlight <= s.gate.inFlight
      && t.gate.cwnd ==
        (if a.DogSetsCwnd? && a.n in s.dogs && s.dogs[a.n].RetryCwnd? then (if s.dogs[a.n].cwnd < 1 then 1 else s.dogs[a.n].cwnd)
         else if a.DogSetsCwnd? && a.n in s.dogs && s.dogs[a.n].LostCwnd? then (if s.dogs[a.n].cwnd < 1 then 1 else s.dogs[a.n].cwnd)
         else s.gate.cwnd)
  {
  }

  /** The value a watchdog has read is always one, that of an ack at least one; whoever has no attempts left when given up
      has used them all. */
  ghost predicate Carried(cfg: Config, s: State) {
    && (forall n :: n in s.dogs && s.dogs[n].RetryCwnd? ==> s.dogs[n].cwnd == 1)
    && (forall n :: n in s.dogs && s.dogs[n].LostCwnd? ==> s.dogs[n].cwnd == 1)
    && (s.ack.AckCwnd? ==> s.ack.cwnd >= 1)
    && (forall n :: n in s.dogs && n in s.slots && (s.dogs[n] == GivingUp || s.dogs[n].LostCwnd? || s.dogs[n].LostRelease?) ==>
          s.slots[n].attempts >= cfg.maxAttempts)
    && (forall n :: n in s.slots && s.slots[n].state == Lost ==> s.slots[n].attempts >= cfg.maxAttempts)
  }

  lemma ProducerCarried(cfg: Config, s: State, a: Action)
    requires Watched(s) && Carried(cfg, s)
    ensures Carried(cfg, ProducerStep(s, a))
  {
  }

  lemma AckCarried(cfg: Config, s: State, a: Action)
    requires Watched(s) && WindowOk(s.window) && Carried(cfg, s)
    ensures Carried(cfg, AckStep(s, a))
  {
    InverseBound(s.window.cwnd);
  }

  lemma DogCarried(cfg: Config, s: State, a: Action)
    requires Watched(s) && Carried(cfg, s)
    ensures Carried(cfg, DogStep(cfg, s, a))
  {
    var t := DogStep(cfg, s, a);
    forall n | n in t.slots ensures CarriedAt(cfg, t, n) { DogCarriedAt(cfg, s, a, n); }
    DogsInSlots(cfg, s, a);
    hide DogStep, Watched;
  }

  lemma DogsInSlots(cfg: Config, s: State, a: Action)
    requires Watched(s)
    ensures forall n :: n in DogStep(cfg, s, a).dogs ==> n in DogStep(cfg, s, a).slots
    ensures DogStep(cfg, s, a).ack == s.ack
  {
  }

  ghost predicate CarriedAt(cfg: Config, s: State, n: nat) {
    && (n in s.dogs && (s.dogs[n].RetryCwnd? || s.dogs[n].LostCwnd?) ==> s.dogs[n].cwnd == 1)
    && (n in s.dogs && n in s.slots && (s.dogs[n] == GivingUp || s.dogs[n].LostCwnd? || s.dogs[n].LostRelease?) ==>
          s.slots[n].attempts >= cfg.maxAttempts)
    && (n in s.slots && s.slots[n].state == Lost ==> s.slots[n].attempts >= cfg.maxAttempts)
  }

  lemma DogCarriedAt(cfg: Config, s: State, a: Action, n: nat)
    requires Carried(cfg, s)
    ensures CarriedAt(cfg, DogStep(cfg, s, a), n)
  {
  }

  lemma {:induction false} ExecCarried(cfg: Config, s: State, acts: seq<Action>)
    requires Sound(cfg, s) && Carried(cfg, s)
    ensures Carried(cfg, Exec(cfg, s, acts))
    decreases |acts|
  {
    if acts != [] {
      StepSound(cfg, s, acts[0]);
      ProducerCarried(cfg, s, acts[0]);
      AckCarried(cfg, s, acts[0]);
      DogCarried(cfg, s, acts[0]);
      hide Carried, Watched, PermitsOk, TriesOk, SamplesOk, ProducerStep, AckStep, DogStep;
      ExecCarried(cfg, Step(cfg, s, acts[0]), acts[1..]);
    }
  }

  /** So in every run the gate gets one after a timeout and never less than one after an ack, and no packet is given up
      before all its attempts have been made. */
  lemma AfterTimeouts(cfg: Config, acts: seq<Action>)
    requires cfg.maxWindow >= 1.0
    ensures var s := Run(cfg, acts);
      && (forall n :: n in s.dogs && (s.dogs[n].RetryCwnd? || s.dogs[n].LostCwnd?) ==> Step(cfg, s, DogSetsCwnd(n)).gate.cwnd == 1)
      && (s.ack.AckCwnd? ==> Step(cfg, s, AckSetsCwnd).gate.cwnd == s.ack.cwnd >= 1)
      && (forall n :: n in s.slots && s.slots[n].state == Lost ==>
            cfg.maxAttempts <= s.slots[n].attempts <= AttemptLimit(cfg) && Count(s.transmissions, n) + Pending(s, n) == s.slots[n].attempts)
  {
    RunSound(cfg, acts);
    InitialSound(cfg);
    ExecCarried(cfg, Initial(cfg), acts);
    var s := Run(cfg, acts);
    hide Run, Step, DogStep, AckStep, ProducerStep;
    forall n | n in s.dogs && (s.dogs[n].RetryCwnd? || s.dogs[n].LostCwnd?) ensures Step(cfg, s, DogSetsCwnd(n)).gate.cwnd == 1 {
      GateNumbers(cfg, s, DogSetsCwnd(n));
    }
    GateNumbers(cfg, s, AckSetsCwnd);
  }

  /** What is left of a `send` that is waiting for a permit or about to, when it finds room: the payload goes out under
      the next number, under a watchdog, and `send` returns. */
  lemma SendGoesThrough(cfg: Config, s: State)
    requires Sound(cfg, s) && s.gate.inFlight < s.gate.cwnd && s.gate.inFlight < s.gate.rwnd
    requires s.producer.Wanting? || (s.producer.Parked? && s.gate.open)
    ensures Exec(cfg, s, (if s.producer.Parked? then [Wake] else []) + [Acquire, Register, Transmit(true), StartDog]) ==
      s.(producer := Idle, gate := Gate(s.gate.inFlight + 1, s.gate.cwnd, s.gate.rwnd, s.gate.open), next := s.next + 1,
         slots := s.slots[s.next := Slot(s.producer.payload, 1, InFlight)], live := s.live + {s.next},
         dogs := s.dogs[s.next := Waiting], transmissions := s.transmissions[s.next := 1])
  {
    var acts := [Acquire, Register, Transmit(true), StartDog];
    NotTransmitted(cfg, s);
    hide Exec, Step, Watched, PermitsOk, TriesOk, SamplesOk;
    if s.producer.Parked? {
      ExecCons(cfg, s, Wake, acts);
      WakeStep(cfg, s);
      WantingGoesThrough(cfg, Step(cfg, s, Wake));
    } else {
      assert [] + acts == acts;
      WantingGoesThrough(cfg, s);
    }
  }

  lemma NotTransmitted(cfg: Config, s: State)
    requires Sound(cfg, s)
    ensures s.next !in s.transmissions
  {
  }

  lemma WakeStep(cfg: Config, s: State)
    requires s.producer.Parked? && s.gate.open && WindowOk(s.window)
    ensures Step(cfg, s, Wake) == s.(producer := Wanting(s.producer.payload))
  {
  }

  lemma WantingGoesThrough(cfg: Config, s: State)
    requires Sound(cfg, s) && s.producer.Wanting? && s.gate.inFlight < Effective(s.gate) && s.next !in s.transmissions
    ensures Exec(cfg, s, [Acquire, Register, Transmit(true), StartDog]) ==
      s.(producer := Idle, gate := Gate(s.gate.inFlight + 1, s.gate.cwnd, s.gate.rwnd, s.gate.open), next := s.next + 1,
         slots := s.slots[s.next := Slot(s.producer.payload, 1, InFlight)], live := s.live + {s.next},
         dogs := s.dogs[s.next := Waiting], transmissions := s.transmissions[s.next := 1])
  {
    hide Exec, Step, ProducerStep, Watched, PermitsOk, TriesOk, SamplesOk;
    FourSteps(s);
    assert [Acquire, Register, Transmit(true), StartDog] == [Acquire] + [Register, Transmit(true), StartDog];
    assert [Register, Transmit(true), StartDog] == [Register] + [Transmit(true), StartDog];
    assert [Transmit(true), StartDog] == [Transmit(true)] + [StartDog] && [StartDog] == [StartDog] + [];
    var a := OneProducerStep(cfg, s, Acquire, [Register, Transmit(true), StartDog]);
    var b := OneProducerStep(cfg, a, Register, [Transmit(true), StartDog]);
    var c := OneProducerStep(cfg, b, Transmit(true), [StartDog]);
    var d := OneProducerStep(cfg, c, StartDog, []);
    NoSteps(cfg, d);
  }

  lemma OneProducerStep(cfg: Config, s: State, a: Action, rest: seq<Action>) returns (t: State)
    requires Sound(cfg, s) && !AckAction(a) && !DogAction(a)
    ensures t == ProducerStep(s, a) && Sound(cfg, t) && Exec(cfg, s, [a] + rest) == Exec(cfg, t, rest)
  {
    t := ProducerStep(s, a);
    hide Exec, ProducerStep, AckStep, DogStep, Watched, PermitsOk, TriesOk, SamplesOk;
    ExecCons(cfg, s, a, rest);
  }

  lemma FourSteps(s: State)
    requires s.producer.Wanting? && s.gate.inFlight < Effective(s.gate) && s.next !in s.transmissions
    ensures ProducerStep(ProducerStep(ProducerStep(ProducerStep(s, Acquire), Register), Transmit(true)), StartDog) ==
      s.(producer := Idle, gate := Gate(s.gate.inFlight + 1, s.gate.cwnd, s.gate.rwnd, s.gate.open), next := s.next + 1,
         slots := s.slots[s.next := Slot(s.producer.payload, 1, InFlight)], live := s.live + {s.next},
         dogs := s.dogs[s.next := Waiting], transmissions := s.transmissions[s.next := 1])
  {
  }

  // ----- the window as a record of acks and timeouts

  /** What a step means for the window: an ack that takes a packet out of flight, or a timeout that retries or gives up. */
  ghost function EventOf(s: State, t: State, a: Action): seq<WindowEvent> {
    if AckAction(a) && t.live != s.live then [AckEvent]
    else if DogAction(a) && (Retries(s, t, a.n) || (a.n in s.dogs && s.dogs[a.n] == GivingUp && t != s)) then [TimeoutEvent]
    else []
  }

  ghost function Log(cfg: Config, s: State, acts: seq<Action>): seq<WindowEvent>
    requires Sound(cfg, s)
    decreases |acts|
  {
    if acts == [] then []
    else
      StepSound(cfg, s, acts[0]);
      EventOf(s, Step(cfg, s, acts[0]), acts[0]) + Log(cfg, Step(cfg, s, acts[0]), acts[1..])
  }

  lemma NoDupAcks(cfg: Config, s: State, acts: seq<Action>)
    requires Sound(cfg, s)
    ensures DupAckEvent !in Log(cfg, s, acts)
    decreases |acts|
  {
    if acts != [] {
      StepSound(cfg, s, acts[0]);
      hide Step, Sound;
      NoDupAcks(cfg, Step(cfg, s, acts[0]), acts[1..]);
    }
  }

  lemma StepWindow(cfg: Config, s: State, a: Action)
    requires Sound(cfg, s)
    ensures var e := EventOf(s, Step(cfg, s, a), a);
      DupAckEvent !in e && Step(cfg, s, a).window == WindowAfter(s.window, e)
  {
    hide ProducerStep, AckStep, DogStep, PermitsOk, TriesOk, SamplesOk, OnAck, OnTimeoutLoss;
    OneEvent(s.window, AckEvent);
    OneEvent(s.window, TimeoutEvent);
    if AckAction(a) { AckWindow(s, a); } else if DogAction(a) { DogWindow(cfg, s, a); } else { ProducerWindow(s, a); }
  }

  lemma AckWindow(s: State, a: Action)
    requires AckAction(a) && WindowOk(s.window)
    ensures AckStep(s, a).window == if AckStep(s, a).live != s.live then OnAck(s.window) else s.window
  {
    hide OnAck;
  }

  lemma DogWindow(cfg: Config, s: State, a: Action)
    requires DogAction(a) && Watched(s)
    ensures var t := DogStep(cfg, s, a);
      t.window == if Retries(s, t, a.n) || (a.n in s.dogs && s.dogs[a.n] == GivingUp && t != s) then OnTimeoutLoss(s.window) else s.window
  {
    hide OnTimeoutLoss;
  }

  lemma ProducerWindow(s: State, a: Action)
    ensures ProducerStep(s, a).window == s.window
  {
  }

  lemma {:induction false} WindowAppend(w: Cwnd, a: seq<WindowEvent>, b: seq<WindowEvent>)
    requires WindowOk(w) && DupAckEvent !in a && DupAckEvent !in b
    ensures WindowAfter(w, a + b) == WindowAfter(WindowAfter(w, a), b)
    decreases |a|
  {
    if a == [] {
      assert a + b == b;
    } else {
      assert (a + b)[1..] == a[1..] + b;
      InverseBound(w.cwnd);
      OneEvent(w, a[0]);
      WindowAppend(WindowAfter(w, [a[0]]), a[1..], b);
    }
  }

  lemma OneEvent(w: Cwnd, e: WindowEvent)
    requires WindowOk(w) && e != DupAckEvent
    ensures WindowAfter(w, [e]) == match e case AckEvent => OnAck(w) case TimeoutEvent => OnTimeoutLoss(w)
  {
    assert [e][1..] == [];
  }

  /** In every run the window is what the acks that took packets out of flight, and the timeouts, make of the first one,
      one event each and in their order. */
  lemma {:induction false} WindowIsLogged(cfg: Config, s: State, acts: seq<Action>)
    requires Sound(cfg, s)
    ensures DupAckEvent !in Log(cfg, s, acts) && Exec(cfg, s, acts).window == WindowAfter(s.window, Log(cfg, s, acts))
    decreases |acts|
  {
    NoDupAcks(cfg, s, acts);
    if acts != [] {
      StepSound(cfg, s, acts[0]);
      StepWindow(cfg, s, acts[0]);
      var t := Step(cfg, s, acts[0]);
      hide Step, EventOf, Watched, PermitsOk, TriesOk, SamplesOk;
      WindowIsLogged(cfg, t, acts[1..]);
      WindowAppend(s.window, EventOf(s, t, acts[0]), Log(cfg, t, acts[1..]));
    }
  }

  // ----- the payloads

  /** The payloads `send` has been called with while it was free. */
  ghost function Given(cfg: Config, s: State, acts: seq<Action>): seq<bytes>
    requires Sound(cfg, s)
    decreases |acts|
  {
    if acts == [] then []
    else
      StepSound(cfg, s, acts[0]);
      (if acts[0].Send? && s.producer.Idle? then [acts[0].payload] else []) + Given(cfg, Step(cfg, s, acts[0]), acts[1..])
  }

  ghost function InSend(p: Producer): seq<bytes> {
    if p.Wanting? || p.Parked? || p.Acquired? then [p.payload] else []
  }

  /** The payloads of all packets, in the order of their numbers. */
  ghost function Payloads(s: State, n: nat): seq<bytes>
    requires forall k: nat :: k < n ==> k in s.slots
  {
    if n == 0 then [] else Payloads(s, n - 1) + [s.slots[n - 1].payload]
  }

  lemma {:induction false} SamePayloads(s: State, t: State, n: nat)
    requires forall k: nat :: k < n ==> k in s.slots && k in t.slots && t.slots[k].payload == s.slots[k].payload
    ensures Payloads(t, n) == Payloads(s, n)
  {
    if n > 0 { SamePayloads(s, t, n - 1); }
  }

  lemma StepPayloads(cfg: Config, s: State, a: Action)
    requires Watched(s) && WindowOk(s.window)
    ensures var t := Step(cfg, s, a);
      && (forall k: nat :: k < s.next ==> k in s.slots && k in t.slots && t.slots[k].payload == s.slots[k].payload)
      && (t.next == s.next || (t.next == s.next + 1 && s.next in t.slots))
      && (if t.next == s.next then [] else [t.slots[s.next].payload]) + InSend(t.producer)
         == InSend(s.producer) + (if a.Send? && s.producer.Idle? then [a.payload] else [])
  {
    hide ProducerStep, AckStep, DogStep;
    if AckAction(a) { AckPayloads(s, a); } else if DogAction(a) { DogPayloads(cfg, s, a); } else { ProducerPayloads(s, a); }
  }

  lemma ProducerPayloads(s: State, a: Action)
    requires Watched(s)
    ensures var t := ProducerStep(s, a);
      && (forall k: nat :: k < s.next ==> k in s.slots && k in t.slots && t.slots[k].payload == s.slots[k].payload)
      && (t.next == s.next || (t.next == s.next + 1 && s.next in t.slots))
      && (if t.next == s.next then [] else [t.slots[s.next].payload]) + InSend(t.producer)
         == InSend(s.producer) + (if a.Send? && s.producer.Idle? then [a.payload] else [])
  {
  }

  lemma AckPayloads(s: State, a: Action)
    requires Watched(s) && WindowOk(s.window)
    ensures var t := AckStep(s, a);
      && (forall k: nat :: k < s.next ==> k in s.slots && k in t.slots && t.slots[k].payload == s.slots[k].payload)
      && t.next == s.next && t.producer == s.producer
  {
  }

  lemma DogPayloads(cfg: Config, s: State, a: Action)
    requires Watched(s)
    ensures var t := DogStep(cfg, s, a);
      && (forall k: nat :: k < s.next ==> k in s.slots && k in t.slots && t.slots[k].payload == s.slots[k].payload)
      && t.next == s.next && t.producer == s.producer
  {
  }

  /** The packets carry, in the order of their numbers, exactly the payloads given to `send`, but for one it may still be
      waiting with. */
  lemma {:induction false} PayloadsInOrder(cfg: Config, s: State, acts: seq<Action>)
    requires Sound(cfg, s)
    ensures var t := Exec(cfg, s, acts);
      && (forall k: nat :: k < s.next ==> k in s.slots) && (forall k: nat :: k < t.next ==> k in t.slots)
      && Payloads(t, t.next) + InSend(t.producer) == Payloads(s, s.next) + InSend(s.producer) + Given(cfg, s, acts)
    decreases |acts|
  {
    hide Step, InSend;
    if acts != [] {
      var t := Step(cfg, s, acts[0]);
      StepSound(cfg, s, acts[0]);
      StepPayloads(cfg, s, acts[0]);
      SamePayloads(s, t, s.next);
      PayloadsInOrder(cfg, t, acts[1..]);
      PayloadStep(cfg, s, acts);
    }
  }

  lemma OneMorePayload(t: State, n: nat)
    requires forall k: nat :: k < t.next ==> k in t.slots
    ensures t.next == n + 1 ==> Payloads(t, n + 1) == Payloads(t, n) + [t.slots[n].payload]
  {
  }

  lemma GivenFirst(cfg: Config, s: State, acts: seq<Action>)
    requires Sound(cfg, s) && acts != []
    ensures Sound(cfg, Step(cfg, s, acts[0]))
    ensures Given(cfg, s, acts) ==
      (if acts[0].Send? && s.producer.Idle? then [acts[0].payload] else []) + Given(cfg, Step(cfg, s, acts[0]), acts[1..])
  {
    StepSound(cfg, s, acts[0]);
    hide Step;
  }

  lemma PayloadStep(cfg: Config, s: State, acts: seq<Action>)
    requires Sound(cfg, s) && acts != [] && Sound(cfg, Step(cfg, s, acts[0]))
    requires var t := Step(cfg, s, acts[0]);
      && (forall k: nat :: k < s.next ==> k in s.slots) && (forall k: nat :: k < t.next ==> k in t.slots)
      && (t.next == s.next || t.next == s.next + 1) && Payloads(t, s.next) == Payloads(s, s.next)
      && (if t.next == s.next then [] else [t.slots[s.next].payload]) + InSend(t.producer)
         == InSend(s.producer) + (if acts[0].Send? && s.producer.Idle? then [acts[0].payload] else [])
    ensures var t := Step(cfg, s, acts[0]);
      Payloads(t, t.next) + InSend(t.producer) + Given(cfg, t, acts[1..]) == Payloads(s, s.next) + InSend(s.producer) + Given(cfg, s, acts)
  {
    hide Step, InSend, Watched, PermitsOk, TriesOk, SamplesOk, Payloads, Given;
    var t := Step(cfg, s, acts[0]);
    var more := if t.next == s.next then [] else [t.slots[s.next].payload];
    var given := if acts[0].Send? && s.producer.Idle? then [acts[0].payload] else [];
    OneMorePayload(t, s.next);
    GivenFirst(cfg, s, acts);
    assert Payloads(t, t.next) == Payloads(s, s.next) + more;
    Regroup(Payloads(s, s.next), more, InSend(t.producer), InSend(s.producer), given, Given(cfg, t, acts[1..]));
  }

  lemma Regroup<T>(p: seq<T>, a: seq<T>, b: seq<T>, c: seq<T>, d: seq<T>, rest: seq<T>)
    requires a + b == c + d
    ensures p + a + b + rest == p + c + (d + rest)
  {
    assert p + a + b == p + (a + b);
    assert p + c + d == p + (c + d);
    assert p + c + (d + rest) == p + c + d + rest;
  }

  // ----- draining

  function Rank(cfg: Config, attempts: int, d: Dog): nat {
    var left := if cfg.maxAttempts > attempts then cfg.maxAttempts - attempts else 0;
    match d
    case Waiting => 3 * left + 4
    case RetryCwnd(_) => 3 * left + 6
    case RetrySend => 3 * left + 5
    case GivingUp => 3
    case LostCwnd(_, _) => 2
    case LostRelease(_) => 1
  }

  ghost function Ranks(cfg: Config, s: State): map<nat, int> {
    map n | n in s.dogs && n in s.slots :: Rank(cfg, s.slots[n].attempts, s.dogs[n])
  }

  /** What all watchdogs together still have to do. */
  ghost function Work(cfg: Config, s: State): int { Total(Ranks(cfg, s)) }

  lemma RanksPut(cfg: Config, s: State, t: State, n: nat)
    requires n in s.slots && n in s.dogs && n in t.slots && n in t.dogs
    requires t.dogs == s.dogs[n := t.dogs[n]] && t.slots == s.slots[n := t.slots[n]]
    ensures Work(cfg, t) == Work(cfg, s) - Rank(cfg, s.slots[n].attempts, s.dogs[n]) + Rank(cfg, t.slots[n].attempts, t.dogs[n])
  {
    assert Ranks(cfg, t) == Ranks(cfg, s)[n := Rank(cfg, t.slots[n].attempts, t.dogs[n])];
    TotalPut(Ranks(cfg, s), n, Rank(cfg, t.slots[n].attempts, t.dogs[n]));
  }

  lemma RanksDrop(cfg: Config, s: State, t: State, n: nat)
    requires n in s.slots && n in s.dogs && t.dogs == s.dogs - {n} && t.slots == s.slots
    ensures Work(cfg, t) == Work(cfg, s) - Rank(cfg, s.slots[n].attempts, s.dogs[n])
  {
    assert Ranks(cfg, t) == Ranks(cfg, s) - {n};
    TotalPick(Ranks(cfg, s), n);
  }

  lemma RankDrops(cfg: Config, s: State, a: Action)
    requires DogAction(a) && DogStep(cfg, s, a) != s && a.n in DogStep(cfg, s, a).dogs
    ensures var t, n := DogStep(cfg, s, a), a.n;
      && n in s.slots && n in s.dogs && n in t.slots
      && Rank(cfg, t.slots[n].attempts, t.dogs[n]) < Rank(cfg, s.slots[n].attempts, s.dogs[n])
  {
  }

  /** Every watchdog step that does something uses up work. */
  lemma DogStepWorks(cfg: Config, s: State, a: Action)
    requires Watched(s) && DogAction(a)
    ensures DogStep(cfg, s, a) == s || Work(cfg, DogStep(cfg, s, a)) < Work(cfg, s)
  {
    var t := DogStep(cfg, s, a);
    if t != s {
      var n := a.n;
      DogStepShape(cfg, s, a);
      if n in t.dogs { RankDrops(cfg, s, a); }
      hide Watched, DogStep, Rank;
      if n in t.dogs { RanksPut(cfg, s, t, n); } else { RanksDrop(cfg, s, t, n); }
    }
  }

  /** Acks neither use up nor add work. */
  lemma AckStepWorks(cfg: Config, s: State, a: Action)
    requires Watched(s) && AckAction(a) && WindowOk(s.window)
    ensures Work(cfg, AckStep(s, a)) == Work(cfg, s)
  {
    assert Ranks(cfg, AckStep(s, a)) == Ranks(cfg, s);
  }

  /** The number of watchdog steps in a run that do something. */
  ghost function DogSteps(cfg: Config, s: State, acts: seq<Action>): nat
    requires Sound(cfg, s)
    decreases |acts|
  {
    if acts == [] then 0
    else
      StepSound(cfg, s, acts[0]);
      (if DogAction(acts[0]) && Step(cfg, s, acts[0]) != s then 1 else 0) + DogSteps(cfg, Step(cfg, s, acts[0]), acts[1..])
  }

  lemma {:induction false} WorkNonNegative(m: map<nat, int>)
    requires forall n :: n in m ==> m[n] >= 0
    ensures Total(m) >= 0
  {
    if m != map[] {
      var k :| k in m && Total(m) == m[k] + Total(m - {k});
      WorkNonNegative(m - {k});
    }
  }

  /** While nothing new is sent, watchdogs can only take as many steps as there is work, acks or no acks. */
  lemma {:induction false} DrainBounded(cfg: Config, s: State, acts: seq<Action>)
    requires Sound(cfg, s) && Draining(acts)
    ensures DogSteps(cfg, s, acts) + Work(cfg, Exec(cfg, s, acts)) <= Work(cfg, s)
    ensures DogSteps(cfg, s, acts) <= Work(cfg, s)
    decreases |acts|
  {
    if acts != [] {
      var a, t := acts[0], Step(cfg, s, acts[0]);
      StepSound(cfg, s, a);
      if DogAction(a) { DogStepWorks(cfg, s, a); } else { AckStepWorks(cfg, s, a); }
      DrainBounded(cfg, t, acts[1..]);
    }
    WorkNonNegative(Ranks(cfg, Exec(cfg, s, acts)));
  }

  /** As long as a packet is in flight that is neither stuck nor in the producer's hands, its watchdog has a step to
      take. */
  lemma DrainProgresses(cfg: Config, s: State, n: nat) returns (a: Action)
    requires Watched(s) && n in s.live && n !in s.stuck && !InHand(s.producer, n)
    ensures DogAction(a) && DogStep(cfg, s, a) != s
  {
    match s.dogs[n] {
      case Waiting => a := DogTimesOut(n);
      case RetryCwnd(_) => a := DogSetsCwnd(n);
      case RetrySend => a := DogResends(n);
      case GivingUp => a := DogGivesUp(n);
    }
  }

  /** No watchdog has a step to take. */
  ghost predicate Quiescent(cfg: Config, s: State) { forall a :: DogAction(a) ==> DogStep(cfg, s, a) == s }

  /** That is when every watchdog has returned. */
  lemma QuiescentMeans(cfg: Config, s: State)
    requires Watched(s)
    ensures Quiescent(cfg, s) <==> s.dogs == map[]
  {
    if n :| n in s.dogs {
      var a := NextStep(cfg, s, n);
      assert DogAction(a);
    }
  }

  lemma NextStep(cfg: Config, s: State, n: nat) returns (a: Action)
    requires Watched(s) && n in s.dogs
    ensures DogAction(a) && DogStep(cfg, s, a) != s
  {
    match s.dogs[n] {
      case Waiting => a := DogTimesOut(n);
      case RetryCwnd(_) => a := DogSetsCwnd(n);
      case RetrySend => a := DogResends(n);
      case GivingUp => a := DogGivesUp(n);
      case LostCwnd(_, _) => a := DogSetsCwnd(n);
      case LostRelease(_) => a := DogReleases(n);
    }
    assert DogStep(cfg, s, a).dogs != s.dogs;
  }

  /** Steps of watchdogs and of the ack task: what goes on while nothing new is sent. */
  ghost predicate Draining(acts: seq<Action>) { forall i :: 0 <= i < |acts| ==> DogAction(acts[i]) || AckAction(acts[i]) }

  lemma {:induction false} ProducerRests(cfg: Config, s: State, acts: seq<Action>)
    requires Sound(cfg, s) && Draining(acts)
    ensures Exec(cfg, s, acts).producer == s.producer && Exec(cfg, s, acts).stuck == s.stuck && Exec(cfg, s, acts).live <= s.live
    decreases |acts|
  {
    hide Step, Watched, PermitsOk, TriesOk, SamplesOk;
    if acts != [] {
      StepSound(cfg, s, acts[0]);
      OnlyFewer(cfg, s, acts[0]);
      ProducerRests(cfg, Step(cfg, s, acts[0]), acts[1..]);
    }
  }

  lemma OnlyFewer(cfg: Config, s: State, a: Action)
    requires WindowOk(s.window) && (DogAction(a) || AckAction(a))
    ensures Step(cfg, s, a).producer == s.producer && Step(cfg, s, a).stuck == s.stuck && Step(cfg, s, a).live <= s.live
  {
  }

  /** Whatever acks and watchdogs have done: once no watchdog has a step left, nothing is in flight but what the producer
      has in hand and what is stuck. */
  lemma DrainFinishes(cfg: Config, s: State, acts: seq<Action>)
    requires Sound(cfg, s) && Draining(acts) && Quiescent(cfg, Exec(cfg, s, acts))
    ensures forall n :: n in Exec(cfg, s, acts).live ==> InHand(s.producer, n) || n in s.stuck
  {
    ProducerRests(cfg, s, acts);
    hide Watched, Exec, DogStep;
    var t := Exec(cfg, s, acts);
    if n :| n in t.live && !InHand(s.producer, n) && n !in s.stuck {
      var _ := DrainProgresses(cfg, t, n);
    }
  }

  lemma {:induction false} ExecAppend(cfg: Config, s: State, acts: seq<Action>, more: seq<Action>)
    requires Sound(cfg, s)
    ensures Exec(cfg, s, acts + more) == Exec(cfg, Exec(cfg, s, acts), more)
    decreases |acts|
  {
    if acts == [] {
      assert acts + more == more;
    } else {
      StepSound(cfg, s, acts[0]);
      assert (acts + more)[0] == acts[0] && (acts + more)[1..] == acts[1..] + more;
      hide Step, Watched, PermitsOk, TriesOk, SamplesOk;
      ExecAppend(cfg, Step(cfg, s, acts[0]), acts[1..], more);
    }
  }

  ghost predicate DogsOnly(acts: seq<Action>) { forall i :: 0 <= i < |acts| ==> DogAction(acts[i]) }

  /** From every state the watchdogs get there, in no more steps than there is work. */
  lemma {:induction false} Quieten(cfg: Config, s: State) returns (acts: seq<Action>)
    requires Sound(cfg, s)
    ensures DogsOnly(acts) && |acts| <= Work(cfg, s) && Quiescent(cfg, Exec(cfg, s, acts))
    decreases Work(cfg, s)
  {
    hide Sound, DogStep, Step, Work, Exec;
    if Quiescent(cfg, s) {
      acts := [];
      NoSteps(cfg, s);
    } else {
      var a :| DogAction(a) && DogStep(cfg, s, a) != s;
      LessWork(cfg, s, a);
      var rest := Quieten(cfg, Step(cfg, s, a));
      acts := [a] + rest;
      ExecCons(cfg, s, a, rest);
    }
  }

  lemma NoSteps(cfg: Config, s: State)
    requires Sound(cfg, s)
    ensures Exec(cfg, s, []) == s && Work(cfg, s) >= 0
  {
    WorkNonNegative(Ranks(cfg, s));
  }

  lemma ExecCons(cfg: Config, s: State, a: Action, rest: seq<Action>)
    requires Sound(cfg, s)
    ensures WindowOk(s.window) && Sound(cfg, Step(cfg, s, a))
    ensures Exec(cfg, s, [a] + rest) == Exec(cfg, Step(cfg, s, a), rest)
  {
    StepSound(cfg, s, a);
    hide Step;
    assert ([a] + rest)[1..] == rest;
  }

  lemma LessWork(cfg: Config, s: State, a: Action)
    requires Sound(cfg, s) && DogAction(a) && DogStep(cfg, s, a) != s
    ensures WindowOk(s.window) && Sound(cfg, Step(cfg, s, a)) && 0 <= Work(cfg, Step(cfg, s, a)) < Work(cfg, s)
  {
    StepSound(cfg, s, a);
    DogStepWorks(cfg, s, a);
    WorkNonNegative(Ranks(cfg, Step(cfg, s, a)));
  }

  /** So every drain can be brought to its end, whatever has happened in it. */
  lemma DrainCanEnd(cfg: Config, s: State, acts: seq<Action>) returns (more: seq<Action>)
    requires Sound(cfg, s) && Draining(acts)
    ensures DogsOnly(more) && Draining(acts + more) && Quiescent(cfg, Exec(cfg, s, acts + more))
    ensures DogSteps(cfg, s, acts) + |more| <= Work(cfg, s)
  {
    DrainBounded(cfg, s, acts);
    hide Sound, Quiescent, Work;
    more := Quieten(cfg, Exec(cfg, s, acts));
    ExecAppend(cfg, s, acts, more);
  }

  /** No ack for this packet is being handled or comes in. */
  ghost predicate NoAckFor(s: State, acts: seq<Action>, n: nat) {
    s.ack != AckPop(n) && forall i :: 0 <= i < |acts| && acts[i].AckArrives? ==> acts[i].n != n
  }

  /** A packet that could not be encoded has no watchdog: without an ack it stays in flight whatever happens. */
  lemma {:induction false} StuckStays(cfg: Config, s: State, acts: seq<Action>, n: nat)
    requires Sound(cfg, s) && n in s.stuck && n in s.live && NoAckFor(s, acts, n)
    ensures n in Exec(cfg, s, acts).live && n in Exec(cfg, s, acts).stuck
    decreases |acts|
  {
    if acts != [] {
      StepSound(cfg, s, acts[0]);
      StuckStep(cfg, s, acts[0], n);
      hide Step, Sound;
      StuckStays(cfg, Step(cfg, s, acts[0]), acts[1..], n);
    }
  }

  lemma StuckStep(cfg: Config, s: State, a: Action, n: nat)
    requires Watched(s) && WindowOk(s.window) && n in s.stuck && n in s.live && s.ack != AckPop(n)
    requires a.AckArrives? ==> a.n != n
    ensures var t := Step(cfg, s, a); n in t.live && n in t.stuck && t.ack != AckPop(n)
  {
  }

  /** Once no watchdog has a step left, a drain with no `send` under way has emptied the flight exactly when no packet in
      it was one whose `send` had raised. */
  lemma DrainFinishesExactly(cfg: Config, s: State, acts: seq<Action>)
    requires Sound(cfg, s) && Draining(acts) && Quiescent(cfg, Exec(cfg, s, acts))
    requires s.producer.Idle? && forall n :: n in s.live * s.stuck ==> NoAckFor(s, acts, n)
    ensures Exec(cfg, s, acts).live == {} <==> s.live !! s.stuck
  {
    hide Exec, Sound, Quiescent, NoAckFor;
    DrainFinishes(cfg, s, acts);
    ProducerRests(cfg, s, acts);
    if n :| n in s.live && n in s.stuck { StuckStays(cfg, s, acts, n); }
  }

  // ----- a permit released twice

  lemma {:induction false} ExecSnoc(cfg: Config, s: State, acts: seq<Action>, a: Action)
    requires Sound(cfg, s)
    ensures Exec(cfg, s, acts + [a]) == Step(cfg, Exec(cfg, s, acts), a)
    decreases |acts|
  {
    StepSound(cfg, s, (acts + [a])[0]);
    if acts == [] {
      assert (acts + [a])[1..] == [];
    } else {
      assert (acts + [a])[1..] == acts[1..] + [a];
      ExecSnoc(cfg, Step(cfg, s, acts[0]), acts[1..], a);
    }
  }

  /** One more step of a run. */
  lemma Then(cfg: Config, acts: seq<Action>, a: Action) returns (longer: seq<Action>)
    requires cfg.maxWindow >= 1.0
    ensures longer == acts + [a] && Run(cfg, longer) == Step(cfg, Run(cfg, acts), a)
  {
    InitialSound(cfg);
    ExecSnoc(cfg, Initial(cfg), acts, a);
    longer := acts + [a];
  }

  function Sent(s: State): State {
    s.(gate := TryAcquire(s.gate), next := s.next + 1, slots := s.slots[s.next := Slot([], 1, InFlight)],
       live := s.live + {s.next}, dogs := s.dogs[s.next := Waiting], transmissions := Counted(s.transmissions, s.next))
  }

  lemma SendSteps(s: State)
    requires s.producer.Idle? && s.gate.inFlight < Effective(s.gate)
    ensures ProducerStep(ProducerStep(ProducerStep(ProducerStep(ProducerStep(s, Send([])), Acquire), Register),
                                      Transmit(true)), StartDog) == Sent(s)
  {
  }

  /** A packet gets through without interruption. */
  lemma SendOne(cfg: Config, acts: seq<Action>) returns (longer: seq<Action>)
    requires cfg.maxWindow >= 1.0
    requires Run(cfg, acts).producer.Idle? && Run(cfg, acts).gate.inFlight < Effective(Run(cfg, acts).gate)
    ensures Run(cfg, longer) == Sent(Run(cfg, acts))
  {
    hide Run, ProducerStep, AckStep, DogStep, Sent;
    SendSteps(Run(cfg, acts));
    longer := Then(cfg, acts, Send([]));
    longer := Then(cfg, longer, Acquire);
    longer := Then(cfg, longer, Register);
    longer := Then(cfg, longer, Transmit(true));
    longer := Then(cfg, longer, StartDog);
  }

  ghost function Settled(s: State, n: nat, rwnd: nat): State
    requires WindowOk(s.window) && n in s.slots
  {
    s.(live := s.live - {n}, window := OnAck(s.window), slots := s.slots[n := s.slots[n].(state := Acked)],
       sampled := if s.slots[n].attempts == 1 then s.sampled + {n} else s.sampled,
       gate := Release(SetCwnd(SetRwnd(s.gate, rwnd), WindowValue(OnAck(s.window)))))
  }

  lemma AckSteps(cfg: Config, s: State, n: nat, rwnd: nat)
    requires Sound(cfg, s) && s.ack.AckIdle? && n in s.live
    ensures n in s.slots
    ensures Step(cfg, Step(cfg, Step(cfg, Step(cfg, s, AckArrives(n, rwnd)), AckPops), AckSetsCwnd), AckReleases)
         == Settled(s, n, rwnd)
  {
  }

  /** An ack for a packet in flight, handled without interruption. */
  lemma AckOne(cfg: Config, acts: seq<Action>, n: nat, rwnd: nat) returns (longer: seq<Action>)
    requires cfg.maxWindow >= 1.0
    requires Run(cfg, acts).ack.AckIdle? && n in Run(cfg, acts).live
    ensures n in Run(cfg, acts).slots && Run(cfg, longer) == Settled(Run(cfg, acts), n, rwnd)
  {
    RunSound(cfg, acts);
    hide Run, Step, Sound;
    AckSteps(cfg, Run(cfg, acts), n, rwnd);
    longer := Then(cfg, acts, AckArrives(n, rwnd));
    longer := Then(cfg, longer, AckPops);
    longer := Then(cfg, longer, AckSetsCwnd);
    longer := Then(cfg, longer, AckReleases);
  }

  ghost function Race(): State {
    var s := Initial(Config(1, 64.0));
    var t := DogStep(Config(1, 64.0), Sent(s), DogTimesOut(0));
    if WindowOk(t.window) && 0 in t.slots then Sent(Settled(t, 0, 1)) else t
  }

  lemma RaceStart()
    ensures var t := DogStep(Config(1, 64.0), Sent(Initial(Config(1, 64.0))), DogTimesOut(0));
      && WindowOk(t.window) && t.slots.Keys == {0} && t.ack.AckIdle? && t.live == {0} && t.producer.Idle? && t.next == 1
      && t.dogs == map[0 := GivingUp] && t.gate.inFlight == 1 && t.doubles == 0 && t.window == Initial(Config(1, 64.0)).window
      && GateOk(t.gate) && t.gate.cwnd == 1
  {
  }

  lemma RaceState()
    ensures var s := Race();
      && s.producer.Idle? && s.ack.AckIdle? && 0 in s.slots && s.live == {1} && s.doubles == 0
      && s.dogs == map[0 := GivingUp, 1 := Waiting] && s.gate.inFlight == 1 && WindowOk(s.window)
      && s.next == 2 && s.gate.rwnd == 1
    ensures var t := DogStep(Config(1, 64.0), Sent(Initial(Config(1, 64.0))), DogTimesOut(0));
      && WindowOk(t.window) && 0 in t.slots && t.ack.AckIdle? && 0 in t.live && t.producer.Idle?
      && Settled(t, 0, 1).gate.inFlight == 0 && Effective(Settled(t, 0, 1).gate) == 1 && Settled(t, 0, 1).producer.Idle?
  {
    hide DogStep, Initial;
    RaceStart();
  }

  /** Watchdog 0 finds its packet in flight and decides to give up; the ack comes in; the next packet is sent. */
  lemma AckDuringGiveUp() returns (acts: seq<Action>)
    ensures Run(Config(1, 64.0), acts) == Race()
  {
    var cfg := Config(1, 64.0);
    InitialSound(cfg);
    assert Run(cfg, []) == Initial(cfg);
    RaceState();
    assert Initial(cfg).producer.Idle? && Initial(cfg).gate == InitialGate;
    hide Run, Sent, Settled, DogStep, AckStep, ProducerStep, Initial;
    acts := SendOne(cfg, []);
    acts := Then(cfg, acts, DogTimesOut(0));
    acts := AckOne(cfg, acts, 0, 1);
    acts := SendOne(cfg, acts);
  }

  /** The look-up and the removal in a watchdog are two steps: when an ack comes between them, the permit of one
      packet is released twice, and the gate counts no permit while a packet is in flight. */
  lemma PermitReleasedTwice() returns (acts: seq<Action>)
    ensures var s := Run(Config(1, 64.0), acts);
      && s.doubles == 1 && s.gate.inFlight == 0 && s.live == {1} && s.producer.Idle? && Holders(s) == 1
      && s.next == 2 && Effective(s.gate) == 1 && s.dogs == map[1 := Waiting] && s.ack.AckIdle?
  {
    var cfg := Config(1, 64.0);
    acts := AckDuringGiveUp();
    RaceState();
    GiveUpAcked(cfg, Race());
    hide Run, Step, Race;
    acts := Then(cfg, acts, DogGivesUp(0));
    acts := Then(cfg, acts, DogSetsCwnd(0));
    acts := Then(cfg, acts, DogReleases(0));
  }

  /** The gate then lets more packets fly than the window allows: one more send, and two are in flight in a window of
      one. */
  lemma WindowOvershot() returns (acts: seq<Action>)
    ensures var s := Run(Config(1, 64.0), acts);
      s.live == {1, 2} && Effective(s.gate) == 1 && Holders(s) == 2 && s.gate.inFlight == 1
  {
    var cfg := Config(1, 64.0);
    var before := PermitReleasedTwice();
    hide Run;
    acts := SendOne(cfg, before);
    var s := Run(cfg, acts);
    assert s.live == {1, 2} && s.dogs == map[1 := Waiting, 2 := Waiting];
    NoneOwing(s.dogs);
  }

  /** Giving up on a packet that has been acked in the meantime. */
  lemma GiveUpAcked(cfg: Config, s: State)
    requires WindowOk(s.window) && s.window.max >= 1.0
    requires 0 in s.slots && s.dogs == map[0 := GivingUp, 1 := Waiting] && s.live == {1} && s.ack.AckIdle? && s.producer.Idle?
    ensures var t := Step(cfg, Step(cfg, Step(cfg, s, DogGivesUp(0)), DogSetsCwnd(0)), DogReleases(0));
      && t.doubles == s.doubles + 1 && t.live == {1} && t.producer.Idle? && t.ack.AckIdle?
      && t.gate.inFlight == (if s.gate.inFlight > 0 then s.gate.inFlight - 1 else 0)
      && Holders(t) == 1 && t.next == s.next && t.dogs == map[1 := Waiting] && t.gate.rwnd == s.gate.rwnd && t.gate.cwnd == 1
  {
    hide Owing;
    var b := DogStep(cfg, DogStep(cfg, s, DogGivesUp(0)), DogSetsCwnd(0));
    GiveUpUnowned(cfg, s);
    assert DogStep(cfg, b, DogReleases(0)).dogs == map[1 := Waiting];
    NoneOwing(map[1 := Waiting]);
  }

  lemma NoneOwing(dogs: map<nat, Dog>)
    requires forall n :: n in dogs ==> dogs[n].Waiting?
    ensures |Owing(dogs)| == 0
  {
    assert Owing(dogs) == {};
  }

  lemma GiveUpUnowned(cfg: Config, s: State)
    requires 0 in s.slots && s.dogs == map[0 := GivingUp, 1 := Waiting] && s.live == {1}
    ensures var a := DogStep(cfg, s, DogGivesUp(0));
      var b := DogStep(cfg, a, DogSetsCwnd(0));
      && WindowOk(a.window) == (a.window.max >= 1.0) && a.window.max == s.window.max == b.window.max
      && b.window == a.window && 0 in b.slots && b.dogs == map[0 := LostRelease(false), 1 := Waiting] && b.live == {1}
      && b.producer == s.producer && b.ack == s.ack && b.doubles == s.doubles && b.gate.inFlight == s.gate.inFlight
      && b.next == s.next && b.gate.rwnd == s.gate.rwnd && b.gate.cwnd == 1
  {
    var a := DogStep(cfg, s, DogGivesUp(0));
    assert a.dogs == map[0 := LostCwnd(false, 1), 1 := Waiting];
  }
}
