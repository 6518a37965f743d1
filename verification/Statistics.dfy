/** Running statistics of a stream: the mean and variance of the sizes, and the duration-weighted mean and spread of
    the rates, kept up to date one event at a time. Numbers are real. */
module Statistics {

  datatype Sample = Sample(weight: real, value: real)

  function Weight(s: seq<Sample>): real {
    if s == [] then 0.0 else Weight(s[..|s| - 1]) + s[|s| - 1].weight
  }

  /** The weighted sum of the values. */
  function Moment(s: seq<Sample>): real {
    if s == [] then 0.0 else Moment(s[..|s| - 1]) + s[|s| - 1].weight * s[|s| - 1].value
  }

  function Deviation(x: Sample, m: real): real { x.weight * ((x.value - m) * (x.value - m)) }

  /** The weighted sum of the squared deviations from `m`. */
  function Spread(s: seq<Sample>, m: real): real {
    if s == [] then 0.0 else Spread(s[..|s| - 1], m) + Deviation(s[|s| - 1], m)
  }

  /** The samples have this weight, this weighted mean, and this spread about their mean. */
  ghost predicate Exact(s: seq<Sample>, weight: real, mean: real, spread: real) {
    Weight(s) == weight >= 0.0 && Moment(s) == mean * weight && Spread(s, mean) == spread
  }

  lemma Snoc(s: seq<Sample>, x: Sample, m: real)
    ensures Weight(s + [x]) == Weight(s) + x.weight
    ensures Moment(s + [x]) == Moment(s) + x.weight * x.value
    ensures Spread(s + [x], m) == Spread(s, m) + Deviation(x, m)
  {
    assert (s + [x])[..|s + [x]| - 1] == s;
  }

  /** A spread `q` of samples of weight `w` and moment `p`, when its reference point moves from `m` to `m + g`. */
  function Shifted(q: real, p: real, w: real, m: real, g: real): real {
    q - 2.0 * g * (p - m * w) + g * g * w
  }

  lemma DeviationShift(s: Sample, m: real, g: real)
    ensures Deviation(s, m + g) == Shifted(Deviation(s, m), s.weight * s.value, s.weight, m, g)
  {
    var w, x := s.weight, s.value;
    var d := x - m;
    assert (x - (m + g)) * (x - (m + g)) == d * d - 2.0 * g * d + g * g;
    assert w * (d * d - 2.0 * g * d + g * g) == w * (d * d) - 2.0 * g * (w * d) + g * g * w;
    assert w * d == w * x - m * w;
  }

  lemma ShiftSum(q: real, p: real, w: real, d: real, r: real, v: real, m: real, g: real)
    ensures Shifted(q, p, w, m, g) + Shifted(d, r, v, m, g) == Shifted(q + d, p + r, w + v, m, g)
  {
  }

  lemma ShiftedNothing(m: real, g: real)
    ensures Shifted(0.0, 0.0, 0.0, m, g) == 0.0
  {
  }

  lemma {:induction false} SpreadShift(s: seq<Sample>, m: real, g: real)
    ensures Spread(s, m + g) == Shifted(Spread(s, m), Moment(s), Weight(s), m, g)
  {
    hide Shifted, Deviation;
    if s == [] {
      ShiftedNothing(m, g);
    } else {
      var front, x := s[..|s| - 1], s[|s| - 1];
      SpreadShift(front, m, g);
      DeviationShift(x, m, g);
      ShiftSum(Spread(front, m), Moment(front), Weight(front), Deviation(x, m), x.weight * x.value, x.weight, m, g);
      assert Spread(s, m) == Spread(front, m) + Deviation(x, m);
      assert Moment(s) == Moment(front) + x.weight * x.value;
      assert Weight(s) == Weight(front) + x.weight;
    }
  }

  /** The weighted update of the mean and of the spread, as the code does them, is exact. */
  lemma WeightedUpdate(s: seq<Sample>, weight: real, mean: real, spread: real, x: Sample, weight': real, mean': real, spread': real)
    requires Exact(s, weight, mean, spread) && x.weight > 0.0
    requires weight' == weight + x.weight
    requires mean' == mean + x.weight / weight' * (x.value - mean)
    requires spread' == spread + x.weight * ((x.value - mean) * (x.value - mean'))
    ensures Exact(s + [x], weight', mean', spread')
  {
    hide Weight, Moment, Spread, Shifted;
    SpreadShift(s, mean, mean' - mean);
    Snoc(s, x, mean');
    assert mean + (mean' - mean) == mean';
    UpdateAlgebra(weight, spread, x.weight, x.value, mean, mean');
  }

  lemma UpdateAlgebra(before: real, spread: real, w: real, x: real, m: real, m': real)
    requires before >= 0.0 && w > 0.0 && m' == m + w / (before + w) * (x - m)
    ensures m * before + w * x == m' * (before + w)
    ensures Shifted(spread, m * before, before, m, m' - m) + w * ((x - m') * (x - m')) == spread + w * ((x - m) * (x - m'))
  {
    var g, d := m' - m, x - m;
    Share(w, before + w, d);
    assert g * (before + w) == w * d;
    MomentStep(m, g, before, w, x);
    Balance(before, w, d, g);
    Unshifted(spread, before, m, g);
    assert d - g == x - m';
  }

  /** About the mean, only the square of the move counts. */
  lemma Unshifted(spread: real, before: real, m: real, g: real)
    ensures Shifted(spread, m * before, before, m, g) == spread + g * g * before
  {
    assert m * before - m * before == 0.0;
  }

  lemma Share(w: real, total: real, d: real)
    requires total > 0.0
    ensures w / total * d * total == w * d
  {
    var q := w / total;
    assert q * total == w;
    assert q * d * total == q * total * d;
  }

  lemma Balance(before: real, w: real, d: real, g: real)
    requires g * (before + w) == w * d
    ensures g * g * before + w * ((d - g) * (d - g)) == w * (d * (d - g))
  {
    assert g * g * before + w * ((d - g) * (d - g)) - w * (d * (d - g)) == g * (g * (before + w) - w * d);
  }

  lemma MomentStep(m: real, g: real, before: real, w: real, x: real)
    requires g * (before + w) == w * (x - m)
    ensures m * before + w * x == (m + g) * (before + w)
  {
  }

  /** Samples of weight one: their number, mean and population variance. */
  ghost predicate ExactSizes(s: seq<Sample>, k: real, mean: real, variance: real) {
    Exact(s, k, mean, k * variance)
  }

  /** The per-event update keeps the exact mean and population variance. */
  lemma SizeUpdate(s: seq<Sample>, k: real, mean: real, variance: real, x: real, k': real, mean': real, variance': real)
    requires ExactSizes(s, k, mean, variance) && k' == k + 1.0
    requires mean' == mean + (x - mean) / k'
    requires variance' == variance + ((x - mean) * (x - mean') - variance) / k'
    ensures ExactSizes(s + [Sample(1.0, x)], k', mean', variance')
  {
    NonNegative(s, k, mean, k * variance);
    hide Exact;
    MeanUpdate(k, x, mean, variance, mean', variance');
    WeightedUpdate(s, k, mean, k * variance, Sample(1.0, x), k', mean', k' * variance');
  }

  lemma NonNegative(s: seq<Sample>, weight: real, mean: real, spread: real)
    requires Exact(s, weight, mean, spread)
    ensures weight >= 0.0
  {
  }

  lemma MeanUpdate(k: real, x: real, mean: real, variance: real, mean': real, variance': real)
    requires k >= 0.0
    requires mean' == mean + (x - mean) / (k + 1.0)
    requires variance' == variance + ((x - mean) * (x - mean') - variance) / (k + 1.0)
    ensures mean' == mean + 1.0 / (k + 1.0) * (x - mean)
    ensures (k + 1.0) * variance' == k * variance + 1.0 * ((x - mean) * (x - mean'))
  {
    var n, product := k + 1.0, (x - mean) * (x - mean');
    Quotient(x - mean, n);
    Quotient(product - variance, n);
    Distribute(n, variance, (product - variance) / n);
  }

  lemma Quotient(a: real, n: real)
    requires n > 0.0
    ensures a / n == 1.0 / n * a && n * (a / n) == a
  {
  }

  lemma Distribute(n: real, a: real, b: real)
    ensures n * (a + b) == n * a + n * b
  {
  }

  class TimeStat {
    var n: int
    var meanEvt: real
    var m2Evt: real
    var tLast: real
    var totalTime: real
    var totalBytes: real
    var m2Rate: real
    var wMean: real
    /** The sizes seen, each of weight one, and the rates seen, each weighted by its duration. */
    ghost var sizes: seq<Sample>
    ghost var rates: seq<Sample>

    /** Mean and variance of the sizes, and weighted mean and spread of the rates, are the exact ones. */
    ghost predicate Valid()
      reads `n, `meanEvt, `m2Evt, `sizes, `totalTime, `wMean, `m2Rate, `rates
    {
      && n >= 0 && ExactSizes(sizes, n as real, meanEvt, m2Evt)
      && Exact(rates, totalTime, wMean, m2Rate)
    }

    constructor ()
      ensures Valid() && sizes == [] && rates == [] && tLast == 0.0 && totalBytes == 0.0
    {
      n, meanEvt, m2Evt, tLast, totalTime, totalBytes, m2Rate, wMean := 0, 0.0, 0.0, 0.0, 0.0, 0.0, 0.0, 0.0;
      sizes, rates := [], [];
    }

    /** One event of `nbytes` at time `t`. It raises when time runs backwards. */
    method Update(nbytes: real, t: real) returns (raised: bool)
      requires Valid()
      modifies this
      ensures Valid()
      ensures sizes == old(sizes) + (if nbytes > 0.0 then [Sample(1.0, nbytes)] else [])
      ensures n == old(n) + if nbytes > 0.0 then 1 else 0
      ensures raised <==> n != 1 && t < old(tLast)
      ensures rates == old(rates) + (if n != 1 && t > old(tLast) then [Sample(t - old(tLast), nbytes / (t - old(tLast)))] else [])
      ensures tLast == if raised then old(tLast) else t
      ensures totalBytes == if raised then old(totalBytes) else if n == 1 then nbytes else old(totalBytes) + nbytes
    {
      hide Exact, Valid;
      if nbytes > 0.0 { CountSize(nbytes); }
      if n == 1 {
        tLast, totalBytes := t, nbytes;
        return false;
      }
      var dt := t - tLast;
      if dt < 0.0 { return true; }
      totalBytes := totalBytes + nbytes;
      if dt == 0.0 { return false; }
      tLast := t;
      CountRate(dt, nbytes / dt);
      raised := false;
    }

    method CountSize(nbytes: real)
      requires Valid()
      modifies `n, `meanEvt, `m2Evt, `sizes
      ensures Valid() && n == old(n) + 1 && sizes == old(sizes) + [Sample(1.0, nbytes)]
    {
      hide ExactSizes, Exact;
      ghost var k, m, v := n as real, meanEvt, m2Evt;
      n := n + 1;
      var delta := nbytes - meanEvt;
      meanEvt := meanEvt + delta / n as real;
      m2Evt := m2Evt + (delta * (nbytes - meanEvt) - m2Evt) / n as real;
      SizeUpdate(sizes, k, m, v, nbytes, n as real, meanEvt, m2Evt);
      sizes := sizes + [Sample(1.0, nbytes)];
    }

    method CountRate(dt: real, rate: real)
      requires Valid() && dt > 0.0
      modifies `totalTime, `wMean, `m2Rate, `rates
      ensures Valid() && rates == old(rates) + [Sample(dt, rate)]
    {
      hide Exact;
      ghost var time, spread := totalTime, m2Rate;
      NonNegative(rates, time, wMean, spread);
      totalTime := totalTime + dt;
      var oldMean := wMean;
      wMean := oldMean + dt / totalTime * (rate - wMean);
      m2Rate := m2Rate + dt * (rate - oldMean) * (rate - wMean);
      Regroup(dt, rate - oldMean, rate - wMean);
      WeightedUpdate(rates, time, oldMean, spread, Sample(dt, rate), totalTime, wMean, m2Rate);
      rates := rates + [Sample(dt, rate)];
    }
  }

  lemma Regroup(a: real, b: real, c: real)
    ensures a * b * c == a * (b * c)
  {
  }
}
