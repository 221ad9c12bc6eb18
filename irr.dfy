/**
 * The IRR solver: Newton-Raphson on the net present value of a cashflow
 * series, falling back to bisection on the bracket [-0.5, 10].
 */
module Irr {
  import opened Types
  import Seqs

  const NEWTON_ITERATIONS: nat := 50
  const BISECTION_ITERATIONS: nat := 100
  const TOLERANCE: real := 0.0000001
  const DERIVATIVE_FLOOR: real := 0.000000000001
  const INITIAL_GUESS: real := 0.1
  /** Newton iterates and converged roots must stay inside [MIN_RATE, MAX_RATE]. */
  const MIN_RATE: real := -0.99
  const MAX_RATE: real := 100.0
  /** The bisection bracket. */
  const BRACKET_LOW: real := -0.5
  const BRACKET_HIGH: real := 10.0

  /** x to a whole, non-negative power (Math.pow with an integer exponent). */
  function Pow(x: real, n: nat): (p: real)
    ensures x > 0.0 ==> p > 0.0
  {
    if n == 0 then 1.0 else x * Pow(x, n - 1)
  }

  /** Discounted value of the first k cashflows: sum of c[t] / (1+r)^t for t < k. */
  function NpvPrefix(cf: seq<real>, r: real, k: nat): real
    requires r > -1.0 && k <= |cf|
  {
    if k == 0 then 0.0 else NpvPrefix(cf, r, k - 1) + cf[k - 1] / Pow(1.0 + r, k - 1)
  }

  /** NPV(r) = sum of c[t] / (1+r)^t over the whole series; at a zero rate it is the plain sum. */
  function Npv(cf: seq<real>, r: real): (npv: real)
    requires r > -1.0
    ensures r == 0.0 ==> npv == Seqs.Sum(cf)
  {
    assert r == 0.0 ==> NpvPrefix(cf, r, |cf|) == Seqs.Sum(cf) by {
      if r == 0.0 {
        NpvPrefixAtZero(cf, |cf|);
        assert cf[..|cf|] == cf;
      }
    }
    NpvPrefix(cf, r, |cf|)
  }

  lemma {:induction false} PowOfOne(n: nat)
    ensures Pow(1.0, n) == 1.0
  {
    if n > 0 {
      PowOfOne(n - 1);
    }
  }

  /** Undiscounted, the first k cashflows simply add up. */
  lemma {:induction false} NpvPrefixAtZero(cf: seq<real>, k: nat)
    requires k <= |cf|
    ensures NpvPrefix(cf, 0.0, k) == Seqs.Sum(cf[..k])
  {
    if k > 0 {
      NpvPrefixAtZero(cf, k - 1);
      PowOfOne(k - 1);
      assert cf[k - 1] / Pow(1.0 + 0.0, k - 1) == cf[k - 1];
      assert cf[..k][..k - 1] == cf[..k - 1];
      assert Seqs.Sum(cf[..k]) == Seqs.Sum(cf[..k - 1]) + cf[k - 1];
    }
  }

  /** The derivative accumulated over the first k cashflows: minus the sum of t*c[t]/(1+r)^(t+1), 0 < t < k. */
  function DerivativePrefix(cf: seq<real>, r: real, k: nat): real
    requires r > -1.0 && k <= |cf|
  {
    if k == 0 then 0.0
    else if k == 1 then DerivativePrefix(cf, r, 0)
    else DerivativePrefix(cf, r, k - 1) - ((k - 1) as real * cf[k - 1]) / Pow(1.0 + r, k)
  }

  function NpvDerivative(cf: seq<real>, r: real): real
    requires r > -1.0
  {
    DerivativePrefix(cf, r, |cf|)
  }

  predicate HasPositive(cf: seq<real>) {
    exists t | 0 <= t < |cf| :: cf[t] > 0.0
  }

  predicate HasNegative(cf: seq<real>) {
    exists t | 0 <= t < |cf| :: cf[t] < 0.0
  }

  predicate InRateRange(r: real) {
    MIN_RATE <= r <= MAX_RATE
  }

  /**
   * The bisection loop from iteration i on the bracket [low, high]: stop at the
   * midpoint once NPV there or the half-width is below the tolerance, otherwise
   * keep the half whose ends have NPVs of opposite sign.
   */
  function BisectFrom(cf: seq<real>, low: real, high: real, i: nat): (r: real)
    requires BRACKET_LOW <= low < high <= BRACKET_HIGH
    requires i <= BISECTION_ITERATIONS
    ensures low <= r <= high
    decreases BISECTION_ITERATIONS - i
  {
    var mid := (low + high) / 2.0;
    if i == BISECTION_ITERATIONS then mid
    else
      var npvMid := Npv(cf, mid);
      if Abs(npvMid) < TOLERANCE || (high - low) / 2.0 < TOLERANCE then mid
      else if npvMid * Npv(cf, low) < 0.0 then BisectFrom(cf, low, mid, i + 1)
      else BisectFrom(cf, mid, high, i + 1)
  }

  /** solveIRRBisection: undetermined when NPV has the same strict sign at both bracket ends. */
  function Bisection(cf: seq<real>): (r: Option<real>)
    ensures r.Some? ==> BRACKET_LOW <= r.value <= BRACKET_HIGH
    ensures r.None? <==> Npv(cf, BRACKET_LOW) * Npv(cf, BRACKET_HIGH) > 0.0
  {
    if Npv(cf, BRACKET_LOW) * Npv(cf, BRACKET_HIGH) > 0.0 then None
    else Some(BisectFrom(cf, BRACKET_LOW, BRACKET_HIGH, 0))
  }

  /**
   * The Newton loop from iteration i at the current rate: hands over to
   * bisection on a vanishing derivative, on leaving the rate range, or when the
   * iterations run out; a converged rate outside the range is undetermined.
   */
  function NewtonFrom(cf: seq<real>, rate: real, i: nat): (root: Option<real>)
    requires InRateRange(rate) && i <= NEWTON_ITERATIONS
    ensures root.Some? ==> InRateRange(root.value)
    decreases NEWTON_ITERATIONS - i
  {
    if i == NEWTON_ITERATIONS then Bisection(cf)
    else
      var npv := Npv(cf, rate);
      var dnpv := NpvDerivative(cf, rate);
      if Abs(dnpv) < DERIVATIVE_FLOOR then Bisection(cf)
      else
        var next := rate - npv / dnpv;
        if Abs(next - rate) < TOLERANCE then
          if InRateRange(next) then Some(next) else None
        else if !InRateRange(next) then Bisection(cf)
        else NewtonFrom(cf, next, i + 1)
  }

  /** solveIRR as a function of the series: any rate it determines lies in [-0.99, 100]. */
  function Irr(cf: seq<real>): (root: Option<real>)
    ensures root.Some? ==> InRateRange(root.value)
  {
    if |cf| < 2 then None
    else if !HasPositive(cf) || !HasNegative(cf) then None
    else NewtonFrom(cf, INITIAL_GUESS, 0)
  }

  /** A determined IRR needs at least two cashflows and a sign change. */
  lemma IrrNeedsSignChange(cf: seq<real>)
    ensures Irr(cf).Some? ==> |cf| >= 2 && HasPositive(cf) && HasNegative(cf)
    ensures |cf| < 2 || !HasPositive(cf) || !HasNegative(cf) ==> Irr(cf) == None
  {
  }

  /** The series [-100, 0, 121] has NPV exactly 0 at the initial guess 10%, so Newton stops there at once. */
  lemma IrrOfTenPercentSeries()
    ensures Irr([-100.0, 0.0, 121.0]) == Some(0.1)
  {
    var cf := [-100.0, 0.0, 121.0];
    assert cf[0] < 0.0 && cf[2] > 0.0;
    assert Irr(cf) == NewtonFrom(cf, INITIAL_GUESS, 0);
    TenPercentSeriesNpv();
    var dnpv := NpvDerivative(cf, 0.1);
    NewtonStep(cf, 0.1, 0, 0.0, dnpv);
    assert 0.1 - 0.0 / dnpv == 0.1;
  }

  lemma TenPercentSeriesNpv()
    ensures Npv([-100.0, 0.0, 121.0], 0.1) == 0.0
    ensures NpvDerivative([-100.0, 0.0, 121.0], 0.1) < -1.0
  {
    var cf := [-100.0, 0.0, 121.0];
    assert Pow(1.1, 1) == 1.1;
    assert Pow(1.1, 2) == 1.21;
    assert Pow(1.1, 3) == 1.331;
    assert NpvPrefix(cf, 0.1, 1) == -100.0;
    assert NpvPrefix(cf, 0.1, 2) == -100.0;
    assert NpvPrefix(cf, 0.1, 3) == -100.0 + 121.0 / 1.21;
    assert DerivativePrefix(cf, 0.1, 2) == 0.0;
    assert DerivativePrefix(cf, 0.1, 3) == - 242.0 / 1.331;
  }

  /** The width of the bisection bracket after i halvings: 10.5 / 2^i. */
  function BracketWidth(i: nat): real {
    if i == 0 then BRACKET_HIGH - BRACKET_LOW else BracketWidth(i - 1) / 2.0
  }

  /** npvAtRate: the loop that sums the discounted cashflows. */
  method NpvAtRate(cf: seq<real>, rate: real) returns (npv: real)
    requires rate > -1.0
    ensures npv == Npv(cf, rate)
  {
    npv := 0.0;
    for t := 0 to |cf|
      invariant npv == NpvPrefix(cf, rate, t)
    {
      npv := npv + cf[t] / Pow(1.0 + rate, t);
    }
  }

  /**
   * The fallback IRR search: None when the NPVs at the bracket ends have the
   * same sign, otherwise the bracket is halved until the midpoint's NPV is
   * within tolerance, the half-width falls below tolerance, or the
   * iterations run out; the last midpoint is the answer. Returns exactly Bisection(cf).
   */
  method SolveIrrBisection(cf: seq<real>) returns (r: Option<real>)
    ensures r == Bisection(cf)
  {
    var low, high := BRACKET_LOW, BRACKET_HIGH;
    var npvLow := NpvAtRate(cf, low);
    var npvHigh := NpvAtRate(cf, high);
    if npvLow * npvHigh > 0.0 {
      return None;
    }
    var i := 0;
    while i < BISECTION_ITERATIONS
      invariant 0 <= i <= BISECTION_ITERATIONS
      invariant BRACKET_LOW <= low < high <= BRACKET_HIGH
      invariant high - low == BracketWidth(i)
      invariant BisectFrom(cf, low, high, i) == BisectFrom(cf, BRACKET_LOW, BRACKET_HIGH, 0)
    {
      var mid := (low + high) / 2.0;
      var npvMid := NpvAtRate(cf, mid);
      if Abs(npvMid) < TOLERANCE || (high - low) / 2.0 < TOLERANCE {
        return Some(mid);
      }
      var npvAtLow := NpvAtRate(cf, low);
      if npvMid * npvAtLow < 0.0 {
        high := mid;
      } else {
        low := mid;
      }
      i := i + 1;
    }
    return Some((low + high) / 2.0);
  }

  /** The inner loop of solveIRR: NPV and its derivative at one rate, summed in a single pass. */
  method NpvAndDerivative(cf: seq<real>, rate: real) returns (npv: real, dnpv: real)
    requires rate > -1.0
    ensures npv == Npv(cf, rate) && dnpv == NpvDerivative(cf, rate)
  {
    npv, dnpv := 0.0, 0.0;
    for t := 0 to |cf|
      invariant npv == NpvPrefix(cf, rate, t)
      invariant dnpv == DerivativePrefix(cf, rate, t)
    {
      npv := npv + cf[t] / Pow(1.0 + rate, t);
      if t > 0 {
        dnpv := dnpv - (t as real * cf[t]) / Pow(1.0 + rate, t + 1);
      }
    }
  }

  /** One Newton iteration unfolded, with NPV and its derivative at the current rate already known. */
  lemma NewtonStep(cf: seq<real>, rate: real, i: nat, npv: real, dnpv: real)
    requires InRateRange(rate) && i < NEWTON_ITERATIONS
    requires npv == Npv(cf, rate) && dnpv == NpvDerivative(cf, rate)
    ensures Abs(dnpv) < DERIVATIVE_FLOOR ==> NewtonFrom(cf, rate, i) == Bisection(cf)
    ensures Abs(dnpv) >= DERIVATIVE_FLOOR ==>
              var next := rate - npv / dnpv;
              NewtonFrom(cf, rate, i)
              == if Abs(next - rate) < TOLERANCE then (if InRateRange(next) then Some(next) else None)
                 else if !InRateRange(next) then Bisection(cf)
                 else NewtonFrom(cf, next, i + 1)
  {
  }

  /** solveIRR with its default iteration budget and tolerance. */
  method SolveIrr(cf: seq<real>) returns (r: Option<real>)
    ensures r == Irr(cf)
  {
    if |cf| < 2 {
      return None;
    }
    var hasPositive := exists t | 0 <= t < |cf| :: cf[t] > 0.0;
    var hasNegative := exists t | 0 <= t < |cf| :: cf[t] < 0.0;
    if !hasPositive || !hasNegative {
      return None;
    }
    var rate := INITIAL_GUESS;
    var i := 0;
    while i < NEWTON_ITERATIONS
      invariant 0 <= i <= NEWTON_ITERATIONS
      invariant InRateRange(rate)
      invariant NewtonFrom(cf, rate, i) == Irr(cf)
    {
      var npv, dnpv := NpvAndDerivative(cf, rate);
      NewtonStep(cf, rate, i, npv, dnpv);
      if Abs(dnpv) < DERIVATIVE_FLOOR {
        r := SolveIrrBisection(cf);
        return;
      }
      var next := rate - npv / dnpv;
      if Abs(next - rate) < TOLERANCE {
        if next < MIN_RATE || next > MAX_RATE {
          return None;
        }
        return Some(next);
      }
      rate := next;
      if rate < MIN_RATE || rate > MAX_RATE {
        r := SolveIrrBisection(cf);
        return;
      }
      i := i + 1;
    }
    r := SolveIrrBisection(cf);
  }
}
