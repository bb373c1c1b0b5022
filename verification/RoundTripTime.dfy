// The retransmission timer of deliver.c over the reals, beside the one of section 2
// of RFC 6298.
module RoundTripTime {

  /** estimated_RTT, dev_RTT and time_interval of deliver.c. */
  datatype Timer = Timer(estimate: real, deviation: real, interval: real)

  function Abs(x: real): real { if x < 0.0 then -x else x }

  function NewEstimate(sample: real, estimate: real): real {
    (1.0 - 0.125) * estimate + 0.125 * sample
  }

  function NewDeviation(deviation: real, sample: real, estimate: real): real {
    (1.0 - 0.25) * deviation + 0.25 * Abs(sample - estimate)
  }

  function Rearm(estimate: real, deviation: real): Timer {
    Timer(estimate, deviation, estimate + 4.0 * deviation)
  }

  /** The first sample of a file. */
  function FirstSample(sample: real): Timer { Rearm(sample, sample / 2.0) }

  /** A later sample: the deviation is computed from the NEW estimate. */
  function NextSample(t: Timer, sample: real): Timer {
    var estimate := NewEstimate(sample, t.estimate);
    Rearm(estimate, NewDeviation(t.deviation, sample, estimate))
  }

  /** The timer after a first sample and the ones that follow it. */
  function After(first: real, later: seq<real>): Timer {
    if later == [] then FirstSample(first)
    else NextSample(After(first, later[..|later| - 1]), later[|later| - 1])
  }

  // ----- section 2 of RFC 6298 -----

  datatype RfcTimer = RfcTimer(srtt: real, rttvar: real)

  /** Section 2.3: RTTVAR is updated with the OLD SRTT, before SRTT. */
  function RfcNext(t: RfcTimer, sample: real): RfcTimer {
    RfcTimer((1.0 - 0.125) * t.srtt + 0.125 * sample,
             (1.0 - 0.25) * t.rttvar + 0.25 * Abs(t.srtt - sample))
  }

  /** Section 2.2, then section 2.3 for each later measurement. */
  function RfcAfter(first: real, later: seq<real>): RfcTimer {
    if later == [] then RfcTimer(first, first / 2.0)
    else RfcNext(RfcAfter(first, later[..|later| - 1]), later[|later| - 1])
  }

  /** SRTT + 4 * RTTVAR, before clock granularity and the one-second minimum. */
  function RfcTimeout(t: RfcTimer): real { t.srtt + 4.0 * t.rttvar }

  function PowerOf(x: real, n: nat): (p: real)
    ensures x >= 0.0 ==> p >= 0.0
  {
    if n == 0 then 1.0 else x * PowerOf(x, n - 1)
  }

  /** The part of the first sample that n updates leave in the code's deviation. */
  function Residue(first: real, n: nat): real { first / 16.0 * PowerOf(0.75, n) }

  lemma ResidueStep(first: real, n: nat)
    ensures Residue(first, n + 1) == 0.75 * Residue(first, n)
  {
    var p := PowerOf(0.75, n);
    assert first / 16.0 * (0.75 * p) == 0.75 * (first / 16.0 * p);
  }

  lemma DeviationStep(estimate: real, deviation: real, rttvar: real, residue: real, s: real)
    requires deviation == 0.875 * rttvar + residue
    ensures NewDeviation(deviation, s, NewEstimate(s, estimate))
         == 0.875 * RfcNext(RfcTimer(estimate, rttvar), s).rttvar + 0.75 * residue
  {
    assert s - NewEstimate(s, estimate) == 0.875 * (s - estimate);
    assert Abs(0.875 * (s - estimate)) == 0.875 * Abs(estimate - s);
  }

  /** Exact relation of the two orders of updating: same estimate, and a deviation
      that is 7/8 of RTTVAR plus (first / 16) * (3/4)^n. */
  lemma {:induction false} RelationToRfc(first: real, later: seq<real>)
    ensures After(first, later).estimate == RfcAfter(first, later).srtt
    ensures After(first, later).deviation
         == 0.875 * RfcAfter(first, later).rttvar + Residue(first, |later|)
  {
    if later == [] {
      assert PowerOf(0.75, 0) == 1.0;
    } else {
      var n := |later| - 1;
      RelationToRfc(first, later[..n]);
      var t, r := After(first, later[..n]), RfcAfter(first, later[..n]);
      DeviationStep(t.estimate, t.deviation, r.rttvar, Residue(first, n), later[n]);
      ResidueStep(first, n);
    }
  }

  /** What the samples of a file, in order, make of the timer: the RFC's estimate, the
      deviation related to its RTTVAR, and the interval of section 2.3. */
  predicate MeasuredBy(t: Timer, samples: seq<real>)
    requires samples != []
  {
    var r := RfcAfter(samples[0], samples[1..]);
    t.estimate == r.srtt && t.deviation == 0.875 * r.rttvar + Residue(samples[0], |samples| - 1)
    && t.interval == t.estimate + 4.0 * t.deviation
  }

  /** A timer that has taken its samples one by one, from nothing. */
  predicate Took(t: Timer, samples: seq<real>) {
    if samples == [] then t.estimate == t.deviation == 0.0 else t == After(samples[0], samples[1..])
  }

  lemma TookNothing(interval: real)
    ensures Took(Timer(0.0, 0.0, interval), [])
  {
  }

  lemma TookIsMeasured(t: Timer, samples: seq<real>)
    requires Took(t, samples) && samples != []
    ensures MeasuredBy(t, samples)
  {
    RelationToRfc(samples[0], samples[1..]);
    IntervalOf(samples[0], samples[1..]);
  }

  lemma TookOneMore(t: Timer, samples: seq<real>, sample: real)
    requires Took(t, samples)
    ensures Took(if samples == [] then FirstSample(sample) else NextSample(t, sample), samples + [sample])
  {
    var all := samples + [sample];
    if samples != [] {
      assert all[1..] == samples[1..] + [sample];
      assert all[1..][..|samples| - 1] == samples[1..];
    }
  }

  lemma {:induction false} VarianceFloor(first: real, later: seq<real>)
    ensures RfcAfter(first, later).rttvar >= first / 2.0 * PowerOf(0.75, |later|)
  {
    if later != [] {
      VarianceFloor(first, later[..|later| - 1]);
    }
  }

  /** The code's timeout never exceeds the RFC's, for any first sample and any later ones. */
  lemma TimeoutAtMostRfc(first: real, later: seq<real>)
    ensures After(first, later).deviation <= RfcAfter(first, later).rttvar
    ensures After(first, later).interval <= RfcTimeout(RfcAfter(first, later))
  {
    RelationToRfc(first, later);
    VarianceFloor(first, later);
    IntervalOf(first, later);
  }

  lemma IntervalOf(first: real, later: seq<real>)
    ensures var t := After(first, later); t.interval == t.estimate + 4.0 * t.deviation
  {
  }

  // ----- bounds and convergence -----

  predicate Within(samples: seq<real>, low: real, high: real) {
    forall i :: 0 <= i < |samples| ==> low <= samples[i] <= high
  }

  function Max(a: real, b: real): real { if a < b then b else a }

  /** With all samples in [low, high] the estimate stays there, the deviation is
      bounded, and the timeout is never below the estimate. */
  lemma {:induction false} TimerBounds(first: real, later: seq<real>, low: real, high: real)
    requires 0.0 <= low <= first <= high && Within(later, low, high)
    ensures var t := After(first, later);
            low <= t.estimate <= high
            && 0.0 <= t.deviation <= Max(first / 2.0, 0.875 * (high - low))
            && t.estimate <= t.interval
  {
    if later != [] {
      var n := |later| - 1;
      TimerBounds(first, later[..n], low, high);
      var t, s := After(first, later[..n]), later[n];
      assert s - NewEstimate(s, t.estimate) == 0.875 * (s - t.estimate);
      assert Abs(0.875 * (s - t.estimate)) <= 0.875 * (high - low);
    }
  }

  /** The timer after `n` more samples that all equal `s`. */
  function Steady(t: Timer, s: real, n: nat): Timer {
    if n == 0 then t else NextSample(Steady(t, s, n - 1), s)
  }

  /** The deviation when p and q of the first error e and deviation d are left. */
  function Decayed(p: real, q: real, e: real, d: real): real { q * d + 1.75 * (e * (p - q)) }

  lemma SteadyStep(estimate: real, deviation: real, s: real, p: real, e: real)
    requires estimate - s == p * e && p >= 0.0
    ensures NewEstimate(s, estimate) - s == (0.875 * p) * e
    ensures NewDeviation(deviation, s, NewEstimate(s, estimate)) == 0.75 * deviation + 0.21875 * (p * Abs(e))
  {
    assert s - NewEstimate(s, estimate) == -0.875 * (p * e);
    ScaledAbs(p, e);
    assert Abs(-0.875 * (p * e)) == 0.875 * Abs(p * e);
  }

  lemma ScaledAbs(p: real, e: real)
    requires p >= 0.0
    ensures Abs(p * e) == p * Abs(e)
  {
    if e < 0.0 {
      assert p * e == -(p * -e);
    }
  }

  lemma DecayStep(p: real, q: real, e: real, d: real)
    ensures 0.75 * Decayed(p, q, e, d) + 0.21875 * (p * e) == Decayed(0.875 * p, 0.75 * q, e, d)
  {
    assert (0.75 * q) * d == 0.75 * (q * d);
    assert e * (0.875 * p - 0.75 * q) == 0.875 * (p * e) - 0.75 * (q * e);
    assert e * (p - q) == p * e - q * e;
  }

  lemma SteadyNext(u: Timer, s: real, p: real, q: real, e: real, d: real)
    requires u.estimate - s == p * e && p >= 0.0
    requires u.deviation == Decayed(p, q, Abs(e), d)
    ensures NextSample(u, s).estimate - s == (0.875 * p) * e
    ensures NextSample(u, s).deviation == Decayed(0.875 * p, 0.75 * q, Abs(e), d)
  {
    SteadyStep(u.estimate, u.deviation, s, p, e);
    DecayStep(p, q, Abs(e), d);
  }

  lemma NothingDecayed(error: real, d: real)
    ensures PowerOf(0.875, 0) == 1.0 && PowerOf(0.75, 0) == 1.0
    ensures 1.0 * error == error && Decayed(1.0, 1.0, Abs(error), d) == d
  {
  }

  /** Constant samples: the exact error of the estimate and the exact deviation. */
  lemma {:induction false} SteadyExactly(t: Timer, s: real, n: nat)
    ensures Steady(t, s, n).estimate - s == PowerOf(0.875, n) * (t.estimate - s)
    ensures Steady(t, s, n).deviation
         == Decayed(PowerOf(0.875, n), PowerOf(0.75, n), Abs(t.estimate - s), t.deviation)
  {
    hide Decayed, NextSample, Abs;
    if n == 0 {
      NothingDecayed(t.estimate - s, t.deviation);
    } else {
      SteadyExactly(t, s, n - 1);
      SteadyNext(Steady(t, s, n - 1), s, PowerOf(0.875, n - 1), PowerOf(0.75, n - 1),
                 t.estimate - s, t.deviation);
    }
  }

  lemma DecayedBounds(p: real, q: real, error: real, d: real)
    requires p >= q >= 0.0
    ensures var excess := p * error + 4.0 * Decayed(p, q, Abs(error), d);
            (4.0 * d - Abs(error)) * q <= excess <= 8.0 * Abs(error) * p + 4.0 * d * q
  {
    hide Abs, Decayed;
    var e := Abs(error);
    AbsIsNotNegative(error);
    ScaledAbs(p, error);
    DecayedIs(p, q, e, d);
    ProductsAre(p, q, e, d);
    LargerFactor(p, q, e);
    NotNegative(q, e);
    var x, pe, qe, qd := p * error, p * e, q * e, q * d;
    InBounds(x, pe, qe, qd);
  }

  lemma DecayedIs(p: real, q: real, e: real, d: real)
    ensures Decayed(p, q, e, d) == q * d + 1.75 * (p * e - q * e)
  {
    assert e * (p - q) == p * e - q * e;
  }

  lemma ProductsAre(p: real, q: real, e: real, d: real)
    ensures (4.0 * d - e) * q == 4.0 * (q * d) - q * e
    ensures 8.0 * e * p == 8.0 * (p * e) && 4.0 * d * q == 4.0 * (q * d)
  {
  }

  lemma InBounds(x: real, pe: real, qe: real, qd: real)
    requires Abs(x) == pe
    requires pe >= qe
    requires qe >= 0.0
    ensures 4.0 * qd - qe <= x + 4.0 * (qd + 1.75 * (pe - qe)) <= 8.0 * pe + 4.0 * qd
  {
  }

  lemma AbsIsNotNegative(x: real)
    ensures Abs(x) >= 0.0
  {
  }

  lemma NotNegative(q: real, e: real)
    requires q >= 0.0 && e >= 0.0
    ensures q * e >= 0.0
  {
  }

  lemma LargerFactor(p: real, q: real, e: real)
    requires p >= q && e >= 0.0
    ensures p * e >= q * e
  {
  }

  lemma ProductsOrdered(x: real, y: real, a: real, b: real)
    requires 0.0 <= x <= y && 0.0 <= a <= b
    ensures 0.0 <= x * a <= y * b
  {
    LargerFactor(b, a, x);
    LargerFactor(y, x, b);
    assert b * x == x * b && a * x == x * a;
  }

  lemma {:induction false} PowersOrdered(x: real, y: real, n: nat)
    requires 0.0 <= x <= y
    ensures 0.0 <= PowerOf(x, n) <= PowerOf(y, n)
  {
    if n == 0 {
      assert PowerOf(x, 0) == PowerOf(y, 0) == 1.0;
    } else {
      PowersOrdered(x, y, n - 1);
      ProductsOrdered(x, y, PowerOf(x, n - 1), PowerOf(y, n - 1));
    }
  }

  /** Hence the timeout converges to the constant sample at a geometric rate, from above
      and below; it never falls under it if the deviation was at least a quarter of the
      error. */
  lemma SteadyTimeout(t: Timer, s: real, n: nat)
    requires n > 0 || t.interval == t.estimate + 4.0 * t.deviation
    ensures Steady(t, s, n).interval - s
         <= 8.0 * Abs(t.estimate - s) * PowerOf(0.875, n) + 4.0 * t.deviation * PowerOf(0.75, n)
    ensures Steady(t, s, n).interval - s
         >= (4.0 * t.deviation - Abs(t.estimate - s)) * PowerOf(0.75, n)
  {
    hide Decayed, Abs, PowerOf, Steady;
    SteadyExactly(t, s, n);
    SteadyInterval(t, s, n);
    PowersOrdered(0.75, 0.875, n);
    DecayedBounds(PowerOf(0.875, n), PowerOf(0.75, n), t.estimate - s, t.deviation);
  }

  lemma SteadyInterval(t: Timer, s: real, n: nat)
    requires n > 0 || t.interval == t.estimate + 4.0 * t.deviation
    ensures var u := Steady(t, s, n); u.interval == u.estimate + 4.0 * u.deviation
  {
  }

  // ----- the timeval handed to the socket -----

  /** tv_sec and tv_usec of deliver.c for a time interval that is not negative. */
  function Timeval(interval: real): (int, int)
    requires interval >= 0.0
  {
    (interval.Floor, ((interval - interval.Floor as real) * 1000000.0).Floor)
  }

  /** A timeval of zero switches SO_RCVTIMEO off: the wait then never ends by itself. */
  predicate Armed(interval: real)
    requires interval >= 0.0
  {
    Timeval(interval) != (0, 0)
  }

  /** The timeval is the interval in whole microseconds, rounded down; the timer is switched
      off exactly by intervals under one microsecond. */
  lemma ArmedExactly(interval: real)
    requires interval >= 0.0
    ensures Armed(interval) <==> interval >= 0.000001
    ensures 0 <= Timeval(interval).0 && 0 <= Timeval(interval).1 < 1000000
    ensures var whole := (1000000 * Timeval(interval).0 + Timeval(interval).1) as real;
            whole <= 1000000.0 * interval < whole + 1.0
  {
    var f := interval - interval.Floor as real;
    assert 0.0 <= f < 1.0;
    assert (1000000 * interval.Floor) as real == 1000000.0 * interval.Floor as real;
    if interval.Floor == 0 {
      assert f == interval;
    }
  }

  // ----- how short the interval can get -----

  /** The shortest interval after n > 0 samples that are at least `low`. */
  function LeastInterval(low: real, n: nat): real
    requires n > 0
  {
    low + 2.0 * (low * PowerOf(0.75, n - 1))
  }

  lemma ShrinksOnce(x: real, p: real)
    requires 0.0 <= x <= 1.0 && p >= 0.0
    ensures 0.0 <= x * p <= p
  {
    LargerFactor(1.0, x, p);
    NotNegative(x, p);
  }

  lemma NextPower(x: real, n: nat)
    ensures PowerOf(x, n + 1) == x * PowerOf(x, n)
  {
  }

  lemma NextIsSmaller(x: real, n: nat)
    requires 0.0 <= x <= 1.0
    ensures 0.0 <= PowerOf(x, n + 1) <= PowerOf(x, n)
  {
    hide PowerOf;
    NextPower(x, n);
    ShrinksOnce(x, PowerOf(x, n));
  }

  lemma {:induction false} PowerShrinks(x: real, m: nat, n: nat)
    requires 0.0 <= x <= 1.0 && m <= n
    ensures 0.0 <= PowerOf(x, n) <= PowerOf(x, m)
  {
    hide PowerOf;
    if m < n {
      PowerShrinks(x, m, n - 1);
      NextIsSmaller(x, n - 1);
    }
  }

  lemma LeastIntervalShrinks(low: real, m: nat, n: nat)
    requires low >= 0.0 && 0 < m <= n
    ensures LeastInterval(low, n) <= LeastInterval(low, m)
  {
    PowerShrinks(0.75, m - 1, n - 1);
  }
}
