/** Congestion window, retransmission timer and window gate of the sliding-window sender. Times and window
    sizes are real numbers. */
module Congestion {

  function RMin(a: real, b: real): real { if a <= b then a else b }

  function RMax(a: real, b: real): real { if a >= b then a else b }

  function RAbs(a: real): real { if a >= 0.0 then a else -a }

  // ----- the congestion window

  datatype Cwnd = Cwnd(cwnd: real, ssthresh: real, max: real)

  function OnAck(w: Cwnd): Cwnd
    requires w.cwnd > 0.0
  {
    if w.cwnd < w.ssthresh then w.(cwnd := RMin(w.cwnd + 1.0, w.max))
    else w.(cwnd := RMin(w.cwnd + 1.0 / w.cwnd, w.max))
  }

  function OnTimeoutLoss(w: Cwnd): Cwnd { w.(ssthresh := RMax(w.cwnd / 2.0, 2.0), cwnd := 1.0) }

  function OnTripleDupAck(w: Cwnd): Cwnd {
    w.(ssthresh := RMax(w.cwnd / 2.0, 2.0), cwnd := RMax(w.cwnd / 2.0, 2.0))
  }

  function WindowValue(w: Cwnd): int { if w.cwnd.Floor >= 1 then w.cwnd.Floor else 1 }

  ghost predicate WindowOk(w: Cwnd) { 1.0 <= w.cwnd <= w.max }

  datatype WindowEvent = AckEvent | TimeoutEvent | DupAckEvent

  ghost function WindowAfter(w: Cwnd, events: seq<WindowEvent>): (r: Cwnd)
    requires WindowOk(w)
    requires DupAckEvent in events ==> w.max >= 2.0
    ensures WindowOk(r) && r.max == w.max
    decreases |events|
  {
    if events == [] then w
    else
      var w' := match events[0] case AckEvent => OnAck(w) case TimeoutEvent => OnTimeoutLoss(w) case DupAckEvent => OnTripleDupAck(w);
      InverseBound(w.cwnd);
      WindowAfter(w', events[1..])
  }

  /** Fast recovery respects the maximum exactly when the maximum is at least two packets. */
  lemma DupAckWithinMaximum(w: Cwnd)
    requires WindowOk(w)
    ensures WindowOk(OnTripleDupAck(w)) <==> w.max >= 2.0
  {
  }

  lemma InverseBound(c: real)
    requires c >= 1.0
    ensures 0.0 < 1.0 / c <= 1.0
  {
  }

  // ----- what the window is, in numbers

  /** Slow start: below the threshold each acknowledgement adds one packet, so a window of them doubles it. */
  lemma {:induction false} SlowStart(w: Cwnd, n: nat)
    requires WindowOk(w) && w.cwnd + n as real <= w.max
    requires n > 0 ==> w.cwnd + (n - 1) as real < w.ssthresh
    ensures WindowAfter(w, Acks(n)) == Cwnd(w.cwnd + n as real, w.ssthresh, w.max)
    decreases n
  {
    if n > 0 {
      assert Acks(n)[1..] == Acks(n - 1);
      assert OnAck(w).cwnd == w.cwnd + 1.0;
      SlowStart(OnAck(w), n - 1);
      assert w.cwnd + 1.0 + (n - 1) as real == w.cwnd + n as real;
    }
  }

  /** At the maximum acknowledgements change nothing. */
  lemma {:induction false} AtMaximum(w: Cwnd, n: nat)
    requires WindowOk(w) && w.cwnd == w.max
    ensures WindowAfter(w, Acks(n)) == w
    decreases n
  {
    if n > 0 {
      InverseBound(w.cwnd);
      assert Acks(n)[1..] == Acks(n - 1);
      assert OnAck(w) == w;
      AtMaximum(w, n - 1);
    }
  }

  /** A timeout brings the window to one packet, and the threshold to half the old window but two at least, so that as
      many acknowledgements as that less one bring it back to the threshold; fast recovery starts right there. */
  lemma LossNumbers(w: Cwnd)
    ensures var half := if w.cwnd >= 4.0 then w.cwnd / 2.0 else 2.0;
      AfterLoss(w, TimeoutEvent) == Cwnd(1.0, half, w.max) && AfterLoss(w, DupAckEvent) == Cwnd(half, half, w.max)
  {
  }

  /** The window after one loss event. */
  function AfterLoss(w: Cwnd, e: WindowEvent): Cwnd {
    if e == TimeoutEvent then OnTimeoutLoss(w) else OnTripleDupAck(w)
  }

  /** The window in whole packets. */
  lemma WholePackets(w: Cwnd)
    requires WindowOk(w)
    ensures 1 <= WindowValue(w) && WindowValue(w) as real <= w.cwnd < WindowValue(w) as real + 1.0
  {
  }

  // ----- congestion avoidance without a cap

  /** `n` acknowledgements in congestion avoidance, away from the maximum. */
  ghost function Grown(c: real, n: nat): (r: real)
    requires c >= 1.0
    ensures r >= c
    decreases n
  {
    if n == 0 then c
    else
      InverseBound(c);
      Grown(c + 1.0 / c, n - 1)
  }

  function Acks(n: nat): (events: seq<WindowEvent>)
    ensures |events| == n && forall e :: e in events ==> e == AckEvent
  {
    if n == 0 then [] else [AckEvent] + Acks(n - 1)
  }

  /** That is what the window does under acknowledgements, from the threshold on and as long as the maximum does not
      cut in. */
  lemma {:induction false} AcksGrow(w: Cwnd, n: nat)
    requires WindowOk(w) && w.cwnd >= w.ssthresh && Grown(w.cwnd, n) <= w.max
    ensures WindowAfter(w, Acks(n)) == w.(cwnd := Grown(w.cwnd, n))
    decreases n
  {
    if n > 0 {
      InverseBound(w.cwnd);
      assert OnAck(w) == w.(cwnd := w.cwnd + 1.0 / w.cwnd);
      assert Acks(n)[1..] == Acks(n - 1);
      AcksGrow(OnAck(w), n - 1);
    }
  }

  lemma SquareStep(g: real)
    requires g >= 1.0
    ensures (g + 1.0 / g) * (g + 1.0 / g) >= g * g + 2.0
  {
    var i := 1.0 / g;
    assert g * i == 1.0;
    assert (g + i) * (g + i) == g * g + 2.0 * (g * i) + i * i;
    assert i * i >= 0.0;
  }

  lemma {:induction false} SquareGrowth(c: real, n: nat)
    requires c >= 1.0
    ensures Grown(c, n) * Grown(c, n) >= c * c + 2.0 * n as real
    decreases n
  {
    if n > 0 {
      InverseBound(c);
      SquareStep(c);
      SquareGrowth(c + 1.0 / c, n - 1);
    }
  }

  lemma {:induction false} LinearGrowth(c: real, n: nat)
    requires c >= 1.0
    ensures Grown(c, n) <= c + n as real / c
    decreases n
  {
    if n > 0 {
      InverseBound(c);
      LinearGrowth(c + 1.0 / c, n - 1);
      LinearStep(c, c + 1.0 / c, (n - 1) as real, n as real);
    }
  }

  lemma LinearStep(c: real, d: real, before: real, n: real)
    requires 1.0 <= c && d == c + 1.0 / c && before >= 0.0 && n == before + 1.0
    ensures d > 0.0 && d + before / d <= c + n / c
  {
    InverseBound(c);
    SlowerLater(before, c, d);
    AddShares(before, c);
  }

  lemma AddShares(a: real, c: real)
    requires c > 0.0
    ensures (a + 1.0) / c == a / c + 1.0 / c
  {
  }

  lemma SlowerLater(n: real, a: real, b: real)
    requires n >= 0.0 && 0.0 < a <= b
    ensures n / b <= n / a
  {
    InverseMonotone(a, b);
    assert n / a == n * (1.0 / a) && n / b == n * (1.0 / b);
    var d := 1.0 / a - 1.0 / b;
    assert n * d >= 0.0;
    assert n * (1.0 / a) - n * (1.0 / b) == n * d;
  }

  lemma InverseMonotone(a: real, b: real)
    requires 0.0 < a <= b
    ensures 1.0 / b <= 1.0 / a
  {
    assert a * (1.0 / a) == 1.0 && b * (1.0 / b) == 1.0;
    if 1.0 / b > 1.0 / a {
      ProductStrict(a, b, 1.0 / a, 1.0 / b);
    }
  }

  lemma ProductStrict(a: real, b: real, x: real, y: real)
    requires 0.0 < a <= b && 0.0 < x < y
    ensures a * x < b * y
  {
    var d, e := b - a, y - x;
    ProductSign(d, x);
    ProductSign(b, e);
    assert d * x >= 0.0 && b * e > 0.0;
    assert b * y == a * x + d * x + b * e;
  }

  lemma ProductSign(u: real, v: real)
    requires 0.0 <= u && 0.0 < v
    ensures u * v >= 0.0 && (u > 0.0 ==> u * v > 0.0)
  {
  }

  lemma SquareOrder(a: real, b: real)
    requires 0.0 < a && 0.0 < b && a * a >= b * b
    ensures a >= b
  {
    if a < b { ProductStrict(a, b, a, b); }
  }

  /** One window's worth of acknowledgements grows the window by at most one, and little more than that many
      grows it by at least one. */
  lemma GrowthPerWindow(c: real, n: nat)
    requires c >= 1.0
    ensures n as real <= c ==> Grown(c, n) <= c + 1.0
    ensures n as real >= c + 0.5 ==> Grown(c, n) >= c + 1.0
  {
    if n as real <= c { GrowthAtMost(c, n); }
    if n as real >= c + 0.5 { GrowthAtLeast(c, n); }
  }

  lemma GrowthAtMost(c: real, n: nat)
    requires 1.0 <= c && n as real <= c
    ensures Grown(c, n) <= c + 1.0
  {
    hide Grown;
    LinearGrowth(c, n);
    QuotientBound(n as real, c);
  }

  lemma GrowthAtLeast(c: real, n: nat)
    requires 1.0 <= c && n as real >= c + 0.5
    ensures Grown(c, n) >= c + 1.0
  {
    hide Grown;
    SquareGrowth(c, n);
    SquareNext(c);
    SquareOrder(Grown(c, n), c + 1.0);
  }

  lemma SquareNext(c: real)
    ensures (c + 1.0) * (c + 1.0) == c * c + 2.0 * c + 1.0
  {
  }

  lemma QuotientBound(a: real, c: real)
    requires 0.0 < c && a <= c
    ensures a / c <= 1.0
  {
  }

  // ----- the retransmission timer

  const ALPHA := 0.125
  const BETA := 0.25
  const K := 4.0
  const MIN_RTO := 0.2
  const MAX_RTO := 60.0

  /** No estimate before the first sample. */
  datatype Rtt = Fresh(rto: real) | Rtt(srtt: real, rttvar: real, rto: real)

  const InitialRtt := Fresh(1.0)

  function Timeout(srtt: real, rttvar: real): real { RMax(MIN_RTO, RMin(MAX_RTO, srtt + K * rttvar)) }

  function Sampled(t: Rtt, sample: real): Rtt {
    if t.Fresh? then Rtt(sample, sample / 2.0, Timeout(sample, sample / 2.0))
    else
      var rttvar := (1.0 - BETA) * t.rttvar + BETA * RAbs(t.srtt - sample);
      var srtt := (1.0 - ALPHA) * t.srtt + ALPHA * sample;
      Rtt(srtt, rttvar, Timeout(srtt, rttvar))
  }

  ghost function AfterSamples(samples: seq<real>): Rtt {
    if samples == [] then InitialRtt else Sampled(AfterSamples(samples[..|samples| - 1]), samples[|samples| - 1])
  }

  /** With every sample in [a, b], the smoothed time stays in [a, b], its deviation is bounded, and the timeout
      stays between its limits. */
  lemma {:induction false} EstimateBounds(samples: seq<real>, a: real, b: real)
    requires 0.0 <= a && forall i :: 0 <= i < |samples| ==> a <= samples[i] <= b
    ensures var t := AfterSamples(samples);
      && MIN_RTO <= t.rto <= MAX_RTO
      && (t.Rtt? <==> samples != [])
      && (t.Rtt? ==> a <= t.srtt <= b && 0.0 <= t.rttvar <= RMax(b / 2.0, b - a))
    decreases |samples|
  {
    if samples != [] {
      var before := samples[..|samples| - 1];
      EstimateBounds(before, a, b);
    }
  }

  /** A constant sample leaves the smoothed time and shrinks the deviation by a quarter each time. */
  lemma ConstantSample(t: Rtt)
    requires t.Rtt?
    ensures Sampled(t, t.srtt).srtt == t.srtt && Sampled(t, t.srtt).rttvar == 0.75 * t.rttvar
  {
  }

  /** A first sample: the timeout is three times the sample, between 0.2 and 60 seconds. */
  lemma FirstTimeout(sample: real)
    requires sample >= 0.0
    ensures var t := AfterSamples([sample]);
      t.rto == if 3.0 * sample < 0.2 then 0.2 else if 3.0 * sample > 60.0 then 60.0 else 3.0 * sample
  {
    assert [sample][..0] == [];
    assert AfterSamples([sample]) == Sampled(InitialRtt, sample);
  }

  /** Before there is one, the timeout is a second; afterwards it is four deviations above the smoothed time, between the
      same limits. */
  lemma TimeoutNumbers(samples: seq<real>)
    ensures var t := AfterSamples(samples);
      if samples == [] then t == Fresh(1.0)
      else
        var plain := t.srtt + 4.0 * t.rttvar;
        t.Rtt? && t.rto == if plain < 0.2 then 0.2 else if plain > 60.0 then 60.0 else plain
  {
  }

  ghost function Power(x: real, n: nat): real { if n == 0 then 1.0 else x * Power(x, n - 1) }

  /** A first value and the later ones, weighted by powers of `1 - share`: the older, the less. */
  ghost function Weighted(first: real, later: seq<real>, share: real): real {
    if later == [] then first
    else
      Power(1.0 - share, |later|) * first + share * WeightedSum(later, share, |later|)
  }

  /** The first `n` of the values, the i-th weighted by the (|later| - 1 - i)-th power. */
  ghost function WeightedSum(later: seq<real>, share: real, n: nat): real
    requires n <= |later|
  {
    if n == 0 then 0.0
    else WeightedSum(later, share, n - 1) + Power(1.0 - share, |later| - n) * later[n - 1]
  }

  lemma {:induction false} WeightedSumLonger(later: seq<real>, x: real, share: real, n: nat)
    requires n <= |later|
    ensures WeightedSum(later + [x], share, n) == (1.0 - share) * WeightedSum(later, share, n)
  {
    hide Power;
    if n > 0 {
      WeightedSumLonger(later, x, share, n - 1);
      assert (later + [x])[n - 1] == later[n - 1];
      NextPower(1.0 - share, |later| - n);
      Spread3(1.0 - share, WeightedSum(later, share, n - 1), Power(1.0 - share, |later| - n), later[n - 1],
              Power(1.0 - share, |later| + 1 - n));
    }
  }

  lemma NextPower(x: real, n: nat)
    ensures Power(x, n + 1) == x * Power(x, n)
  {
  }

  lemma Spread3(a: real, s: real, p: real, v: real, q: real)
    requires q == a * p
    ensures a * s + q * v == a * (s + p * v)
  {
  }

  /** One more value: the average moves by its share. */
  lemma WeightedSnoc(first: real, later: seq<real>, x: real, share: real)
    ensures Weighted(first, later + [x], share) == (1.0 - share) * Weighted(first, later, share) + share * x
  {
    var n := |later|;
    WeightedSumLonger(later, x, share, n);
    assert (later + [x])[n] == x;
    assert Power(1.0 - share, 0) == 1.0;
    assert WeightedSum(later + [x], share, n + 1) == WeightedSum(later + [x], share, n) + x;
    if n == 0 {
      assert Power(1.0 - share, 1) == (1.0 - share) * Power(1.0 - share, 0);
      assert WeightedSum(later, share, 0) == 0.0;
    } else {
      MoveAverage(1.0 - share, Power(1.0 - share, n), first, share, WeightedSum(later, share, n), x);
    }
  }

  lemma MoveAverage(a: real, p: real, first: real, share: real, sum: real, x: real)
    ensures a * p * first + share * (a * sum + x) == a * (p * first + share * sum) + share * x
  {
  }

  /** The distances of the samples, from the second on, from the smoothed time before each. */
  ghost function Distances(samples: seq<real>): seq<real> {
    if |samples| <= 1 then []
    else
      var front, x := samples[..|samples| - 1], samples[|samples| - 1];
      var smoothed := Weighted(front[0], front[1..], 0.125);
      Distances(front) + [if smoothed >= x then smoothed - x else x - smoothed]
  }

  /** The smoothed time is the average of the samples with weights falling by powers of 7/8, and the deviation that of
      half the first sample and the distances with weights falling by powers of 3/4 (section 2 of RFC 6298). */
  lemma {:induction false} SmoothedIs(samples: seq<real>)
    requires samples != []
    ensures var t := AfterSamples(samples);
      && t.Rtt? && t.srtt == Weighted(samples[0], samples[1..], 0.125)
      && t.rttvar == Weighted(samples[0] / 2.0, Distances(samples), 0.25)
    decreases |samples|
  {
    hide Weighted, Sampled, Distances, AfterSamples;
    var n := |samples| - 1;
    if n == 0 {
      assert samples == [samples[0]];
      OneSample(samples[0]);
    } else {
      var front, x := samples[..n], samples[n];
      SmoothedIs(front);
      NextSample(samples, AfterSamples(front));
    }
  }

  lemma OneSample(sample: real)
    ensures var t := AfterSamples([sample]);
      && t.Rtt? && t.srtt == Weighted(sample, [sample][1..], 0.125) && t.rttvar == Weighted(sample / 2.0, Distances([sample]), 0.25)
  {
    assert [sample][..0] == [] && [sample][1..] == [];
    WeightedAlone(sample, 0.125);
    WeightedAlone(sample / 2.0, 0.25);
  }

  lemma NextSample(samples: seq<real>, t: Rtt)
    requires |samples| > 1
    requires var front := samples[..|samples| - 1];
      && t == AfterSamples(front) && t.Rtt? && t.srtt == Weighted(front[0], front[1..], 0.125)
      && t.rttvar == Weighted(front[0] / 2.0, Distances(front), 0.25)
    ensures var t' := AfterSamples(samples);
      && t'.Rtt? && t'.srtt == Weighted(samples[0], samples[1..], 0.125)
      && t'.rttvar == Weighted(samples[0] / 2.0, Distances(samples), 0.25)
  {
    hide Weighted, AfterSamples, Sampled, Distances;
    var front, x := samples[..|samples| - 1], samples[|samples| - 1];
    var distance := if t.srtt >= x then t.srtt - x else x - t.srtt;
    LongerBy(samples, t);
    SampledNumbers(t, x);
    WeightedSnoc(front[0], front[1..], x, 0.125);
    WeightedSnoc(front[0] / 2.0, Distances(front), distance, 0.25);
  }

  lemma LongerBy(samples: seq<real>, t: Rtt)
    requires |samples| > 1
    requires var front := samples[..|samples| - 1]; t == AfterSamples(front) && t.Rtt? && t.srtt == Weighted(front[0], front[1..], 0.125)
    ensures var front, x := samples[..|samples| - 1], samples[|samples| - 1];
      && front[0] == samples[0] && samples[1..] == front[1..] + [x] && AfterSamples(samples) == Sampled(t, x)
      && Distances(samples) == Distances(front) + [if t.srtt >= x then t.srtt - x else x - t.srtt]
  {
    hide Weighted, Sampled;
  }

  lemma SampledNumbers(t: Rtt, x: real)
    requires t.Rtt?
    ensures var t' := Sampled(t, x);
      && t'.Rtt? && t'.srtt == 0.875 * t.srtt + 0.125 * x
      && t'.rttvar == 0.75 * t.rttvar + 0.25 * (if t.srtt >= x then t.srtt - x else x - t.srtt)
  {
  }

  lemma WeightedAlone(first: real, share: real)
    ensures Weighted(first, [], share) == first
  {
  }

  // ----- the classes

  class CongestionWindow {
    var cwnd: real
    var ssthresh: real
    const max: real

    ghost function Abs(): Cwnd
      reads this
    {
      Cwnd(cwnd, ssthresh, max)
    }

    constructor (initialWindow: int, maxWindow: int)
      ensures Abs() == Cwnd(initialWindow as real, maxWindow as real, maxWindow as real)
    {
      cwnd, ssthresh, max := initialWindow as real, maxWindow as real, maxWindow as real;
    }

    method Ack()
      requires WindowOk(Abs())
      modifies this
      ensures Abs() == OnAck(old(Abs())) && WindowOk(Abs())
    {
      InverseBound(cwnd);
      if cwnd < ssthresh {
        cwnd := RMin(cwnd + 1.0, max);
      } else {
        cwnd := RMin(cwnd + 1.0 / cwnd, max);
      }
    }

    method TimeoutLoss()
      modifies this
      ensures Abs() == OnTimeoutLoss(old(Abs()))
    {
      ssthresh := RMax(cwnd / 2.0, 2.0);
      cwnd := 1.0;
    }

    method TripleDupAck()
      modifies this
      ensures Abs() == OnTripleDupAck(old(Abs()))
    {
      ssthresh := RMax(cwnd / 2.0, 2.0);
      cwnd := ssthresh;
    }
  }

  class RttEstimator {
    var sampled: bool
    var srtt: real
    var rttvar: real
    var rto: real

    ghost function Abs(): Rtt
      reads this
    {
      if sampled then Rtt(srtt, rttvar, rto) else Fresh(rto)
    }

    constructor ()
      ensures Abs() == InitialRtt
    {
      sampled, srtt, rttvar, rto := false, 0.0, 0.0, 1.0;
    }

    /** The deviation is updated with the old smoothed time, before that absorbs the sample. */
    method Update(sample: real)
      modifies this
      ensures Abs() == Sampled(old(Abs()), sample)
    {
      if !sampled {
        sampled, srtt := true, sample;
        rttvar := sample / 2.0;
      } else {
        rttvar := (1.0 - BETA) * rttvar + BETA * RAbs(srtt - sample);
        srtt := (1.0 - ALPHA) * srtt + ALPHA * sample;
      }
      rto := RMax(MIN_RTO, RMin(MAX_RTO, srtt + K * rttvar));
    }
  }

  // ----- the window gate

  /** Permits taken, the two windows, and whether the wake-up event is set. */
  datatype Gate = Gate(inFlight: nat, cwnd: int, rwnd: int, open: bool)

  const InitialGate := Gate(0, 1, 1, true)

  function Effective(g: Gate): int { if g.cwnd <= g.rwnd then g.cwnd else g.rwnd }

  ghost predicate GateOk(g: Gate) { g.cwnd >= 1 && g.rwnd >= 1 }

  /** One pass of `acquire`: take a permit, or arm a fresh event to wait on. */
  function TryAcquire(g: Gate): Gate {
    if g.inFlight < Effective(g) then g.(inFlight := g.inFlight + 1) else g.(open := false)
  }

  function Release(g: Gate): Gate { g.(inFlight := if g.inFlight > 0 then g.inFlight - 1 else 0, open := true) }

  function SetRwnd(g: Gate, rwnd: int): Gate { g.(rwnd := if rwnd >= 1 then rwnd else 1, open := true) }

  function SetCwnd(g: Gate, cwnd: int): Gate { g.(cwnd := if cwnd >= 1 then cwnd else 1, open := true) }

  /** A permit is granted exactly when fewer are taken than either window allows; taking and giving back are inverse, and
      a window never shrinks below one packet. */
  lemma GateNumbers(g: Gate, window: int)
    ensures TryAcquire(g) == if g.inFlight < g.cwnd && g.inFlight < g.rwnd then Gate(g.inFlight + 1, g.cwnd, g.rwnd, g.open)
                             else Gate(g.inFlight, g.cwnd, g.rwnd, false)
    ensures Release(g) == Gate(if g.inFlight == 0 then 0 else g.inFlight - 1, g.cwnd, g.rwnd, true)
    ensures g.inFlight < g.cwnd && g.inFlight < g.rwnd && g.open ==> Release(TryAcquire(g)) == g
    ensures SetRwnd(g, window) == Gate(g.inFlight, g.cwnd, if window < 1 then 1 else window, true)
    ensures SetCwnd(g, window) == Gate(g.inFlight, if window < 1 then 1 else window, g.rwnd, true)
  {
  }

  class WindowGate {
    var inFlight: nat
    var cwnd: int
    var rwnd: int
    var hasSpace: bool

    ghost function Abs(): Gate
      reads this
    {
      Gate(inFlight, cwnd, rwnd, hasSpace)
    }

    constructor ()
      ensures Abs() == InitialGate && GateOk(Abs())
    {
      inFlight, cwnd, rwnd, hasSpace := 0, 1, 1, true;
    }

    /** The locked part of `acquire`; the caller waits for the event when it fails, then tries again. */
    method Acquire() returns (taken: bool)
      modifies this
      ensures Abs() == TryAcquire(old(Abs()))
      ensures taken <==> old(Abs().inFlight < Effective(Abs()))
    {
      var effective := if cwnd <= rwnd then cwnd else rwnd;
      if inFlight < effective {
        inFlight := inFlight + 1;
        return true;
      }
      hasSpace := false;
      taken := false;
    }

    method ReleasePermit()
      modifies this
      ensures Abs() == Release(old(Abs()))
    {
      inFlight := if inFlight > 0 then inFlight - 1 else 0;
      hasSpace := true;
    }

    method UpdateRwnd(value: int)
      modifies this
      ensures Abs() == SetRwnd(old(Abs()), value)
    {
      rwnd := if value >= 1 then value else 1;
      hasSpace := true;
    }

    method UpdateCwnd(value: int)
      modifies this
      ensures Abs() == SetCwnd(old(Abs()), value)
    {
      cwnd := if value >= 1 then value else 1;
      hasSpace := true;
    }
  }
}
