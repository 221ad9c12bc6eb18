/**
 * The fee and carry engine and the offer evaluator: per-offer upfront,
 * management and admin fees, a European-waterfall carry, net and gross exit
 * values, MOIC, the IRR cashflow series and the break-even exit price.
 */
module Calculations {
  import opened Types
  import opened Seqs
  import Irr

  /* ---------------------------------------------------------------- carry */

  /** Math.pow(x, n) for a whole exponent n of either sign, on a positive base. */
  function PowInt(x: real, n: int): (p: real)
    requires x > 0.0
    ensures p > 0.0
  {
    if n >= 0 then Irr.Pow(x, n) else 1.0 / Irr.Pow(x, -n)
  }

  /**
   * The compounded preferred return investment * ((1+h)^T - 1); 0 unless the
   * hurdle rate is positive. It is never negative for a non-negative
   * investment and horizon.
   */
  function PreferredReturn(investmentAmount: real, hurdleRatePercent: real, timeHorizon: int): (r: real)
    ensures investmentAmount >= 0.0 && timeHorizon >= 0 ==> r >= 0.0
  {
    var hurdleRate := hurdleRatePercent / 100.0;
    if hurdleRate > 0.0 then
      var growth := PowInt(1.0 + hurdleRate, timeHorizon);
      assert investmentAmount >= 0.0 && timeHorizon >= 0 ==> investmentAmount * (growth - 1.0) >= 0.0 by {
        if investmentAmount >= 0.0 && timeHorizon >= 0 {
          PowAtLeastOne(1.0 + hurdleRate, timeHorizon);
          MonotoneProduct(0.0, growth - 1.0, investmentAmount);
        }
      }
      investmentAmount * (growth - 1.0)
    else 0.0
  }

  /**
   * computeCarry: nothing unless carry is charged and there is a profit;
   * otherwise the waterfall above the compounded preferred return.
   */
  function ComputeCarry(investmentAmount: real, grossProfit: real, hurdleRatePercent: real,
                        catchUpPercent: real, carryPercent: real, timeHorizon: int): (carry: real)
    ensures carry >= 0.0
  {
    if carryPercent <= 0.0 || grossProfit <= 0.0 then 0.0
    else
      var preferredReturn := PreferredReturn(investmentAmount, hurdleRatePercent, timeHorizon);
      WaterfallPositiveIff(grossProfit, preferredReturn, catchUpPercent, carryPercent);
      Waterfall(grossProfit, preferredReturn, catchUpPercent, carryPercent)
  }

  /**
   * The distribution waterfall: return of capital and the preferred return go
   * to the investor; then the catch-up at catchUpRate until the manager holds
   * carryRate of the whole profit; then carryRate of what is left.
   */
  function Waterfall(grossProfit: real, preferredReturn: real, catchUpPercent: real, carryPercent: real): (carry: real)
    ensures carryPercent == 0.0 ==> carry == 0.0
  {
    var carryRate := carryPercent / 100.0;
    if grossProfit <= preferredReturn then 0.0
    else
      var profitAboveHurdle := grossProfit - preferredReturn;
      if catchUpPercent <= 0.0 then profitAboveHurdle * carryRate
      else
        var catchUpRate := catchUpPercent / 100.0;
        var catchUpAmount := grossProfit * carryRate / catchUpRate;
        if profitAboveHurdle <= catchUpAmount then profitAboveHurdle * catchUpRate
        else catchUpAmount * catchUpRate + (profitAboveHurdle - catchUpAmount) * carryRate
  }

  lemma WaterfallPositiveIff(p: real, pref: real, cu: real, c: real)
    requires c > 0.0 && p > 0.0
    ensures Waterfall(p, pref, cu, c) >= 0.0
    ensures Waterfall(p, pref, cu, c) > 0.0 <==> p > pref
  {
    if p > pref {
      var above := p - pref;
      var rate := c / 100.0;
      if cu <= 0.0 {
        PositiveProduct(above, rate);
      } else {
        var cuRate := cu / 100.0;
        var amount := p * rate / cuRate;
        PositiveProduct(p, rate);
        PositiveQuotient(p * rate, cuRate);
        if above <= amount {
          PositiveProduct(above, cuRate);
        } else {
          PositiveProduct(amount, cuRate);
          PositiveProduct(above - amount, rate);
        }
      }
    }
  }

  /** Carry is never negative, and positive exactly when carry is charged, there is a profit and it clears the hurdle. */
  lemma CarryPositiveIff(inv: real, p: real, h: real, cu: real, c: real, t: int)
    ensures ComputeCarry(inv, p, h, cu, c, t) >= 0.0
    ensures ComputeCarry(inv, p, h, cu, c, t) > 0.0 <==> c > 0.0 && p > 0.0 && p > PreferredReturn(inv, h, t)
  {
    if c > 0.0 && p > 0.0 {
      WaterfallPositiveIff(p, PreferredReturn(inv, h, t), cu, c);
    }
  }

  lemma PositiveProduct(x: real, y: real)
    requires x > 0.0 && y > 0.0
    ensures x * y > 0.0
  {
  }

  lemma ProductBelow(x: real, y: real)
    requires x > 0.0 && y < 1.0
    ensures x * y < x
  {
    assert x * (1.0 - y) > 0.0;
  }

  lemma PositiveQuotient(x: real, y: real)
    requires x > 0.0 && y > 0.0
    ensures x / y > 0.0
  {
  }

  lemma MonotoneProduct(x: real, y: real, k: real)
    requires x <= y && k >= 0.0
    ensures x * k <= y * k
  {
  }

  lemma ScaledBelow(x: real, k: real)
    requires x >= 0.0 && 0.0 <= k <= 1.0
    ensures 0.0 <= x * k <= x
  {
    MonotoneProduct(k, 1.0, x);
  }

  /** A fraction of x is at most any bound on x. */
  lemma ScaledBelowBound(x: real, k: real, bound: real)
    requires 0.0 <= x <= bound && 0.0 <= k <= 1.0
    ensures x * k <= bound
  {
    ScaledBelow(x, k);
  }

  /** Without a catch-up, carry is carryRate of the profit above the preferred return. */
  lemma CarryWithoutCatchUp(inv: real, p: real, h: real, cu: real, c: real, t: int)
    requires cu <= 0.0 && c > 0.0 && p > 0.0 && p > PreferredReturn(inv, h, t)
    ensures ComputeCarry(inv, p, h, cu, c, t) == (p - PreferredReturn(inv, h, t)) * (c / 100.0)
  {
  }

  /** With neither hurdle nor catch-up, carry is exactly grossProfit * carryRate. */
  lemma CarryWithoutHurdleOrCatchUp(inv: real, p: real, h: real, cu: real, c: real, t: int)
    requires h <= 0.0 && cu <= 0.0 && c >= 0.0 && p >= 0.0
    ensures ComputeCarry(inv, p, h, cu, c, t) == p * (c / 100.0)
  {
  }

  /**
   * With a catch-up, carry is catchUpRate of the profit above the hurdle while
   * that profit is within catchUpAmount (and then at most carryRate of the
   * whole profit); beyond it, carryRate of the whole profit plus carryRate of
   * the excess (and then more than carryRate of the whole profit).
   */
  lemma CarryWithCatchUp(inv: real, p: real, h: real, cu: real, c: real, t: int)
    requires cu > 0.0 && c > 0.0 && p > 0.0 && p > PreferredReturn(inv, h, t)
    ensures var above := p - PreferredReturn(inv, h, t);
            var amount := p * (c / 100.0) / (cu / 100.0);
            var carry := ComputeCarry(inv, p, h, cu, c, t);
            (above <= amount ==> carry == above * (cu / 100.0) && carry <= p * (c / 100.0)) &&
            (above > amount ==> carry == p * (c / 100.0) + (above - amount) * (c / 100.0) && carry > p * (c / 100.0))
  {
    var above := p - PreferredReturn(inv, h, t);
    var rate, cuRate := c / 100.0, cu / 100.0;
    var amount := p * rate / cuRate;
    assert amount * cuRate == p * rate;
    if above <= amount {
      MonotoneProduct(above, amount, cuRate);
    } else {
      PositiveProduct(above - amount, rate);
    }
  }

  /** For validated terms, carry never exceeds the gross profit. */
  lemma CarryAtMostProfit(inv: real, p: real, h: real, cu: real, c: real, t: int)
    requires inv >= 0.0 && h >= 0.0 && 0.0 <= cu <= 100.0 && 0.0 <= c <= 100.0 && t >= 0
    requires p > 0.0
    ensures 0.0 <= ComputeCarry(inv, p, h, cu, c, t) <= p
  {
    if c > 0.0 {
      WaterfallAtMostProfit(p, PreferredReturn(inv, h, t), cu, c);
    }
  }

  lemma WaterfallAtMostProfit(p: real, pref: real, cu: real, c: real)
    requires pref >= 0.0 && 0.0 <= cu <= 100.0 && 0.0 < c <= 100.0 && p > 0.0
    ensures 0.0 <= Waterfall(p, pref, cu, c) <= p
  {
    WaterfallPositiveIff(p, pref, cu, c);
    if p > pref {
      if cu <= 0.0 {
        BoundWithoutCatchUp(p, pref, cu, c);
      } else if p - pref <= p * (c / 100.0) / (cu / 100.0) {
        BoundWithinCatchUp(p, pref, cu, c);
      } else {
        BoundBeyondCatchUp(p, pref, cu, c);
      }
    }
  }

  lemma BoundWithoutCatchUp(p: real, pref: real, cu: real, c: real)
    requires pref >= 0.0 && 0.0 < c <= 100.0 && p > pref && cu <= 0.0
    ensures Waterfall(p, pref, cu, c) <= p
  {
    var above := p - pref;
    assert Waterfall(p, pref, cu, c) == above * (c / 100.0);
    ScaledBelowBound(above, c / 100.0, p);
  }

  lemma BoundWithinCatchUp(p: real, pref: real, cu: real, c: real)
    requires pref >= 0.0 && 0.0 < cu <= 100.0 && p > pref
    requires p - pref <= p * (c / 100.0) / (cu / 100.0)
    ensures Waterfall(p, pref, cu, c) <= p
  {
    var above := p - pref;
    assert Waterfall(p, pref, cu, c) == above * (cu / 100.0);
    ScaledBelowBound(above, cu / 100.0, p);
  }

  lemma BoundBeyondCatchUp(p: real, pref: real, cu: real, c: real)
    requires pref >= 0.0 && 0.0 < cu <= 100.0 && 0.0 < c <= 100.0 && p > pref
    requires p - pref > p * (c / 100.0) / (cu / 100.0)
    ensures Waterfall(p, pref, cu, c) <= p
  {
    BeyondCatchUpBound(p, c / 100.0, cu / 100.0, p - pref);
  }

  /** Beyond the catch-up, carry is P*c + c*(excess) <= P*c + c*(P - P*c) = P - P*(1-c)^2 <= P. */
  lemma BeyondCatchUpBound(p: real, rate: real, cuRate: real, above: real)
    requires p > 0.0 && 0.0 < rate <= 1.0 && 0.0 < cuRate <= 1.0 && above <= p
    requires above > p * rate / cuRate
    ensures (p * rate / cuRate) * cuRate + (above - p * rate / cuRate) * rate <= p
  {
    var amount := p * rate / cuRate;
    var x := p * rate;
    assert amount * cuRate == x;
    assert amount >= x by {
      MonotoneProduct(cuRate, 1.0, amount);
    }
    MonotoneProduct(rate, 1.0, p);
    MonotoneProduct(above - amount, p - x, rate);
    MonotoneProduct(rate, 1.0, p - x);
  }

  lemma {:induction false} PowAtLeastOne(x: real, n: nat)
    requires x >= 1.0
    ensures Irr.Pow(x, n) >= 1.0
  {
    if n > 0 {
      PowAtLeastOne(x, n - 1);
      MonotoneProduct(1.0, x, Irr.Pow(x, n - 1));
    }
  }

  /** With no hurdle and a 100% catch-up, the formula yields P*c*(2-c), above carryRate of the profit when 0 < c < 1. */
  lemma CarryFullCatchUpNoHurdle(inv: real, p: real, c: real, t: int)
    requires p > 0.0 && 0.0 < c < 100.0
    ensures ComputeCarry(inv, p, 0.0, 100.0, c, t) == p * (c / 100.0) * (2.0 - c / 100.0)
    ensures ComputeCarry(inv, p, 0.0, 100.0, c, t) > p * (c / 100.0)
  {
    assert PreferredReturn(inv, 0.0, t) == 0.0;
    FullCatchUpWaterfall(p, c);
  }

  lemma FullCatchUpWaterfall(p: real, c: real)
    requires p > 0.0 && 0.0 < c < 100.0
    ensures Waterfall(p, 0.0, 100.0, c) == p * (c / 100.0) * (2.0 - c / 100.0)
    ensures Waterfall(p, 0.0, 100.0, c) > p * (c / 100.0)
  {
    var rate := c / 100.0;
    var x := p * rate;
    ProductBelow(p, rate);
    assert x / 1.0 == x;
    assert Waterfall(p, 0.0, 100.0, c) == x * 1.0 + (p - x) * rate;
    FullCatchUpShares(p, rate);
  }

  /** P*c in full, then c of the rest: P*c + (P - P*c)*c = P*c*(2-c) > P*c. */
  lemma FullCatchUpShares(p: real, rate: real)
    requires p > 0.0 && 0.0 < rate < 1.0
    ensures (p * rate) * 1.0 + (p - p * rate) * rate == p * rate * (2.0 - rate)
    ensures (p * rate) * 1.0 + (p - p * rate) * rate > p * rate
  {
    var x := p * rate;
    ProductBelow(p, rate);
    PositiveProduct(p - x, rate);
    assert (p - x) * rate == x - x * rate;
    assert x * (2.0 - rate) == x + x - x * rate;
  }

  /** The 8% hurdle over 3 years on 100,000 is 25,971.20, and no carry is due on a profit up to that. */
  lemma CarryBelowEightPercentHurdle(p: real)
    requires p <= 25971.2
    ensures PreferredReturn(100000.0, 8.0, 3) == 25971.2
    ensures ComputeCarry(100000.0, p, 8.0, 100.0, 20.0, 3) == 0.0
  {
    assert Irr.Pow(1.08, 3) == 1.259712;
  }

  /* ------------------------------------------------------ recurring fees */

  /** computeAnnualManagementFee: the rate applied to the NAV estimate for basis Nav, to the investment otherwise. */
  function AnnualManagementFee(o: Offer, investmentAmount: real, currentNav: real): (fee: real)
    ensures o.managementFeePercent >= 0.0 && investmentAmount >= 0.0 && currentNav >= 0.0 ==> fee >= 0.0
  {
    var rate := o.managementFeePercent / 100.0;
    if o.managementFeeBasis == Nav then currentNav * rate else investmentAmount * rate
  }

  /** computeAnnualAdminFee: flat, or a percentage of the investment. */
  function AnnualAdminFee(o: Offer, investmentAmount: real): (fee: real)
    ensures o.adminFee >= 0.0 && investmentAmount >= 0.0 ==> fee >= 0.0
  {
    if o.adminFeeIsPercent then investmentAmount * (o.adminFee / 100.0) else o.adminFee
  }

  /** Only basis Nav reads the NAV estimate; Committed and Invested charge the same. */
  lemma ManagementFeeBasisUse(o: Offer, inv: real, nav1: real, nav2: real)
    ensures o.managementFeeBasis != Nav ==>
              AnnualManagementFee(o, inv, nav1) == AnnualManagementFee(o, inv, nav2)
    ensures AnnualManagementFee(o.(managementFeeBasis := Committed), inv, nav1)
         == AnnualManagementFee(o.(managementFeeBasis := Invested), inv, nav1)
    ensures AnnualManagementFee(o.(managementFeeBasis := Nav), inv, nav1) == nav1 * (o.managementFeePercent / 100.0)
  {
  }

  /** Straight-line NAV estimate for year y of T: investment + (gross exit - investment) * y/T. */
  function EstimatedNav(investmentAmount: real, grossExitValue: real, year: int, timeHorizon: int): real
    requires timeHorizon >= 1
  {
    investmentAmount + (grossExitValue - investmentAmount) * (year as real / timeHorizon as real)
  }

  /** Management fees of years 1..k. */
  function ManagementFeesThrough(o: Offer, inv: real, gross: real, timeHorizon: int, k: nat): real
    requires k == 0 || k <= timeHorizon
  {
    if k == 0 then 0.0
    else ManagementFeesThrough(o, inv, gross, timeHorizon, k - 1)
         + AnnualManagementFee(o, inv, EstimatedNav(inv, gross, k, timeHorizon))
  }

  /** Admin fees of years 1..k. */
  function AdminFeesThrough(o: Offer, inv: real, k: nat): real {
    if k == 0 then 0.0 else AdminFeesThrough(o, inv, k - 1) + AnnualAdminFee(o, inv)
  }

  /** On a committed or invested basis the management fee over k years is k * investment * rate. */
  lemma {:induction false} ManagementFeesOnCapital(o: Offer, inv: real, gross: real, t: int, k: nat)
    requires k == 0 || k <= t
    requires o.managementFeeBasis != Nav
    ensures ManagementFeesThrough(o, inv, gross, t, k) == k as real * (inv * (o.managementFeePercent / 100.0))
  {
    if k > 0 {
      ManagementFeesOnCapital(o, inv, gross, t, k - 1);
    }
  }

  /** 1 + 2 + ... + k. */
  function Triangle(k: nat): nat {
    if k == 0 then 0 else Triangle(k - 1) + k
  }

  lemma {:induction false} TriangleClosedForm(k: nat)
    ensures 2 * Triangle(k) == k * (k + 1)
  {
    if k > 0 {
      TriangleClosedForm(k - 1);
    }
  }

  /** On a NAV basis the management fees over the whole horizon T are rate * (T * investment + (gross - investment) * (T+1)/2). */
  lemma NavFeesOverHorizon(o: Offer, inv: real, gross: real, t: int)
    requires t >= 1 && o.managementFeeBasis == Nav
    ensures ManagementFeesThrough(o, inv, gross, t, t)
         == (o.managementFeePercent / 100.0) * (t as real * inv + (gross - inv) * ((t + 1) as real / 2.0))
  {
    ManagementFeesOnNav(o, inv, gross, t, t);
    NavSumClosedForm(inv, gross, t, t);
    TriangleClosedForm(t);
    assert Triangle(t) as real / t as real == (t + 1) as real / 2.0;
  }

  /** The NAV estimates of years 1..k added up. */
  function NavSum(inv: real, gross: real, t: int, k: nat): real
    requires t >= 1
  {
    if k == 0 then 0.0 else NavSum(inv, gross, t, k - 1) + EstimatedNav(inv, gross, k, t)
  }

  /**
   * On a NAV basis the fees of years 1..k are the rate times the summed NAV
   * estimates, whose closed form NavSumClosedForm gives.
   */
  lemma {:induction false} ManagementFeesOnNav(o: Offer, inv: real, gross: real, t: int, k: nat)
    requires t >= 1 && k <= t
    requires o.managementFeeBasis == Nav
    ensures ManagementFeesThrough(o, inv, gross, t, k) == (o.managementFeePercent / 100.0) * NavSum(inv, gross, t, k)
  {
    if k > 0 {
      ManagementFeesOnNav(o, inv, gross, t, k - 1);
      var rate := o.managementFeePercent / 100.0;
      var before := NavSum(inv, gross, t, k - 1);
      var nav := EstimatedNav(inv, gross, k, t);
      assert rate * before + nav * rate == rate * (before + nav);
    }
  }

  /** The summed NAV estimates of years 1..k: k * investment + (gross - investment) * (1 + ... + k) / T. */
  lemma {:induction false} NavSumClosedForm(inv: real, gross: real, t: int, k: nat)
    requires t >= 1
    ensures NavSum(inv, gross, t, k) == k as real * inv + (gross - inv) * (Triangle(k) as real / t as real)
  {
    if k > 0 {
      NavSumClosedForm(inv, gross, t, k - 1);
      var d := gross - inv;
      var tri := Triangle(k - 1) as real;
      var kr := k as real;
      assert Triangle(k) as real == tri + kr;
      assert d * (tri / t as real) + d * (kr / t as real) == d * ((tri + kr) / t as real);
    }
  }

  /** Admin fees over k years are k times the annual amount. */
  lemma {:induction false} AdminFeesLinear(o: Offer, inv: real, k: nat)
    ensures AdminFeesThrough(o, inv, k) == k as real * AnnualAdminFee(o, inv)
  {
    if k > 0 {
      AdminFeesLinear(o, inv, k - 1);
    }
  }

  /* ------------------------------------------------------- the evaluator */

  function SharesAcquired(s: Scenario, o: Offer): real
    requires o.pricePerShare != 0.0
  {
    s.investmentAmount / o.pricePerShare
  }

  function SetupFeeAmount(s: Scenario, o: Offer): real {
    if o.setupFeeIsPercent then s.investmentAmount * (o.setupFee / 100.0) else o.setupFee
  }

  function PlacementFeeAmount(s: Scenario, o: Offer): real {
    s.investmentAmount * (o.placementFeePercent / 100.0)
  }

  function UpfrontFees(s: Scenario, o: Offer): real {
    SetupFeeAmount(s, o) + PlacementFeeAmount(s, o)
  }

  function TotalCashOutlay(s: Scenario, o: Offer): real {
    s.investmentAmount + UpfrontFees(s, o)
  }

  function GrossExitValue(s: Scenario, o: Offer): real
    requires o.pricePerShare != 0.0
  {
    SharesAcquired(s, o) * s.exitPricePerShare
  }

  function GrossProfit(s: Scenario, o: Offer): real
    requires o.pricePerShare != 0.0
  {
    GrossExitValue(s, o) - s.investmentAmount
  }

  /** Management fees over years 1..timeHorizon (none when the horizon is not positive). */
  function TotalManagementFees(s: Scenario, o: Offer): real
    requires o.pricePerShare != 0.0
  {
    if s.timeHorizon <= 0 then 0.0
    else ManagementFeesThrough(o, s.investmentAmount, GrossExitValue(s, o), s.timeHorizon, s.timeHorizon)
  }

  function TotalAdminFees(s: Scenario, o: Offer): real {
    if s.timeHorizon <= 0 then 0.0 else AdminFeesThrough(o, s.investmentAmount, s.timeHorizon)
  }

  function Carry(s: Scenario, o: Offer): real
    requires o.pricePerShare != 0.0
  {
    ComputeCarry(s.investmentAmount, GrossProfit(s, o), o.hurdleRatePercent,
                 o.catchUpPercent, o.carryPercent, s.timeHorizon)
  }

  function NetExitValue(s: Scenario, o: Offer): real
    requires o.pricePerShare != 0.0
  {
    GrossExitValue(s, o) - TotalManagementFees(s, o) - TotalAdminFees(s, o) - Carry(s, o)
  }

  function NetReturn(s: Scenario, o: Offer): real
    requires o.pricePerShare != 0.0
  {
    NetExitValue(s, o) - TotalCashOutlay(s, o)
  }

  /**
   * A quotient guarded against a non-positive denominator, as computeCore
   * forms both MOICs and the effective fee rate: 0 when the denominator is
   * not positive, otherwise the numerator per unit of denominator.
   */
  function Ratio(x: real, y: real): (r: real)
    ensures y <= 0.0 ==> r == 0.0
    ensures y > 0.0 ==> r * y == x
  {
    if y > 0.0 then x / y else 0.0
  }

  function GrossMoic(s: Scenario, o: Offer): real
    requires o.pricePerShare != 0.0
  {
    Ratio(GrossExitValue(s, o), TotalCashOutlay(s, o))
  }

  function NetMoic(s: Scenario, o: Offer): real
    requires o.pricePerShare != 0.0
  {
    Ratio(NetExitValue(s, o), TotalCashOutlay(s, o))
  }

  function TotalFees(s: Scenario, o: Offer): real
    requires o.pricePerShare != 0.0
  {
    UpfrontFees(s, o) + TotalManagementFees(s, o) + TotalAdminFees(s, o) + Carry(s, o)
  }

  function EffectiveFeeRate(s: Scenario, o: Offer): real
    requires o.pricePerShare != 0.0
  {
    Ratio(TotalFees(s, o), GrossProfit(s, o))
  }

  /** The year-y charge (management plus admin) at the NAV estimate of year y. */
  function AnnualCharge(o: Offer, inv: real, gross: real, year: int, timeHorizon: int): real
    requires timeHorizon >= 1
  {
    AnnualManagementFee(o, inv, EstimatedNav(inv, gross, year, timeHorizon)) + AnnualAdminFee(o, inv)
  }

  /** The interim cashflows of years 1..k: each year's charges as an outflow. */
  function FeeDrags(o: Offer, inv: real, gross: real, timeHorizon: int, k: nat): (drags: seq<real>)
    requires k == 0 || k < timeHorizon
    ensures |drags| == k
  {
    seq(k, i requires 0 <= i < k => -AnnualCharge(o, inv, gross, i + 1, timeHorizon))
  }

  /**
   * The IRR series: the cash outlay at t=0, the fee charges of years
   * 1..T-1, and in the final year the gross exit less that year's charges
   * (at NAV = gross exit) and the carry.
   */
  function CashflowSeries(o: Offer, inv: real, gross: real, outlay: real, carry: real, timeHorizon: int): seq<real> {
    var drags := if timeHorizon >= 2 then FeeDrags(o, inv, gross, timeHorizon, timeHorizon - 1) else [];
    var finalFees := AnnualManagementFee(o, inv, gross) + AnnualAdminFee(o, inv);
    [-outlay] + drags + [gross - finalFees - carry]
  }

  function Cashflows(s: Scenario, o: Offer): seq<real>
    requires o.pricePerShare != 0.0
  {
    CashflowSeries(o, s.investmentAmount, GrossExitValue(s, o), TotalCashOutlay(s, o), Carry(s, o), s.timeHorizon)
  }

  function NetIrr(s: Scenario, o: Offer): Option<real>
    requires o.pricePerShare != 0.0
  {
    Irr.Irr(Cashflows(s, o))
  }

  /** Everything computeCore returns. */
  datatype Core = Core(
    sharesAcquired: real,
    setupFee: real,
    placementFee: real,
    upfrontFees: real,
    totalCashOutlay: real,
    grossExitValue: real,
    grossProfit: real,
    grossMOIC: real,
    netExitValue: real,
    netReturn: real,
    netMOIC: real,
    netIRR: Option<real>,
    totalFees: real,
    effectiveFeeRate: real,
    totalManagementFees: real,
    totalAdminFees: real,
    carry: real)

  /** computeCore as a function of scenario and offer: every figure above, gathered. */
  function CoreOf(s: Scenario, o: Offer): Core
    requires o.pricePerShare != 0.0
  {
    Core(
      SharesAcquired(s, o), SetupFeeAmount(s, o), PlacementFeeAmount(s, o), UpfrontFees(s, o),
      TotalCashOutlay(s, o), GrossExitValue(s, o), GrossProfit(s, o), GrossMoic(s, o),
      NetExitValue(s, o), NetReturn(s, o), NetMoic(s, o), NetIrr(s, o), TotalFees(s, o),
      EffectiveFeeRate(s, o), TotalManagementFees(s, o), TotalAdminFees(s, o), Carry(s, o))
  }

  /** The scenario with another exit price and every other field unchanged. */
  function AtExitPrice(s: Scenario, price: real): (t: Scenario)
    ensures t.exitPricePerShare == price
    ensures t.(exitPricePerShare := s.exitPricePerShare) == s
  {
    s.(exitPricePerShare := price)
  }

  const BREAK_EVEN_ITERATIONS: nat := 100
  const BREAK_EVEN_TOLERANCE: real := 0.01

  /** How the break-even search ended: at a price within tolerance, or with its final bracket. */
  datatype Search = Found(price: real) | Exhausted(low: real, high: real)

  /** A width halved n times: width / 2^n. */
  function Halved(width: real, n: nat): real
    decreases n
  {
    if n == 0 then width else Halved(width / 2.0, n - 1)
  }

  predicate Between(x: real, a: real, b: real) {
    (a <= x <= b) || (b <= x <= a)
  }

  /** The net return as a function of the exit price, all else as in the scenario. */
  function NetReturnCurve(s: Scenario, o: Offer): real -> real
    requires o.pricePerShare != 0.0
  {
    price => NetReturn(AtExitPrice(s, price), o)
  }

  /** The bisection loop of findBreakEvenPrice from iteration i on the bracket [low, high]. */
  function BreakEvenSearch(netReturnAt: real -> real, low: real, high: real, i: nat): Search
    requires i <= BREAK_EVEN_ITERATIONS
    decreases BREAK_EVEN_ITERATIONS - i
  {
    if i == BREAK_EVEN_ITERATIONS then Exhausted(low, high)
    else
      var mid := (low + high) / 2.0;
      var netReturn := netReturnAt(mid);
      if Abs(netReturn) < BREAK_EVEN_TOLERANCE then Found(mid)
      else if netReturn < 0.0 then BreakEvenSearch(netReturnAt, mid, high, i + 1)
      else BreakEvenSearch(netReturnAt, low, mid, i + 1)
  }

  function BreakEvenOutcome(s: Scenario, o: Offer): Search
    requires o.pricePerShare != 0.0
  {
    BreakEvenSearch(NetReturnCurve(s, o), 0.0, BreakEvenCeiling(o), 0)
  }

  /** The top of the break-even search bracket: 20 times the price per share. */
  function BreakEvenCeiling(o: Offer): real {
    o.pricePerShare * 20.0
  }

  /** findBreakEvenPrice as a function of scenario and offer. */
  function BreakEvenPrice(s: Scenario, o: Offer): real
    requires o.pricePerShare != 0.0
  {
    SearchPrice(BreakEvenOutcome(s, o))
  }

  /** The price a search returns: where it stopped, or the midpoint of its last bracket. */
  function SearchPrice(r: Search): real {
    match r
    case Found(mid) => mid
    case Exhausted(low, high) => (low + high) / 2.0
  }

  lemma {:induction false} BreakEvenSearchBracket(netReturnAt: real -> real, low: real, high: real, i: nat)
    requires i <= BREAK_EVEN_ITERATIONS
    ensures match BreakEvenSearch(netReturnAt, low, high, i)
            case Found(mid) => Between(mid, low, high) && Abs(netReturnAt(mid)) < BREAK_EVEN_TOLERANCE
            case Exhausted(l, h) =>
              Between(l, low, high) && Between(h, low, high)
              && h - l == Halved(high - low, BREAK_EVEN_ITERATIONS - i)
    decreases BREAK_EVEN_ITERATIONS - i
  {
    if i < BREAK_EVEN_ITERATIONS {
      var mid := (low + high) / 2.0;
      var netReturn := netReturnAt(mid);
      if Abs(netReturn) >= BREAK_EVEN_TOLERANCE {
        if netReturn < 0.0 {
          BreakEvenSearchBracket(netReturnAt, mid, high, i + 1);
          assert high - mid == (high - low) / 2.0;
        } else {
          BreakEvenSearchBracket(netReturnAt, low, mid, i + 1);
          assert mid - low == (high - low) / 2.0;
        }
      }
    }
  }

  /**
   * The break-even price lies between 0 and 20 * pricePerShare. The search
   * stops early only at a price whose net return is within 0.01 of zero;
   * otherwise the result is the midpoint of a bracket narrowed 100 times.
   */
  lemma BreakEvenPriceBounds(s: Scenario, o: Offer)
    requires o.pricePerShare != 0.0
    ensures Between(BreakEvenPrice(s, o), 0.0, o.pricePerShare * 20.0)
    ensures BreakEvenOutcome(s, o).Found? ==>
              Abs(NetReturnCurve(s, o)(BreakEvenPrice(s, o))) < BREAK_EVEN_TOLERANCE
    ensures BreakEvenOutcome(s, o).Exhausted? ==>
              var r := BreakEvenOutcome(s, o);
              r.high - r.low == Halved(o.pricePerShare * 20.0, BREAK_EVEN_ITERATIONS)
  {
    var curve, ceiling := NetReturnCurve(s, o), BreakEvenCeiling(o);
    SearchFromZero(curve, ceiling);
    assert BreakEvenOutcome(s, o) == BreakEvenSearch(curve, 0.0, ceiling, 0);
    assert BreakEvenPrice(s, o) == SearchPrice(BreakEvenOutcome(s, o));
  }

  /** The search over [0, width]: its result stays in the bracket, and an exhausted search leaves a bracket halved 100 times. */
  lemma SearchFromZero(netReturnAt: real -> real, width: real)
    ensures var r := BreakEvenSearch(netReturnAt, 0.0, width, 0);
            && (r.Found? ==> Between(r.price, 0.0, width) && Abs(netReturnAt(r.price)) < BREAK_EVEN_TOLERANCE)
            && (r.Exhausted? ==> Between((r.low + r.high) / 2.0, 0.0, width)
                                 && r.high - r.low == Halved(width, BREAK_EVEN_ITERATIONS))
  {
    BreakEvenSearchBracket(netReturnAt, 0.0, width, 0);
  }

  /** calculateOfferFull as a function of scenario and offer. */
  function OfferResult(s: Scenario, o: Offer): CalculationResult
    requires o.pricePerShare != 0.0
  {
    var core := CoreOf(s, o);
    CalculationResult(
      o.id, o.name, o.color,
      core.sharesAcquired, core.upfrontFees, core.totalCashOutlay, core.grossExitValue,
      core.grossProfit, core.grossMOIC, core.netExitValue, core.netReturn, core.netMOIC,
      core.netIRR, core.totalFees, core.effectiveFeeRate, BreakEvenPrice(s, o),
      FeeBreakdown(core.setupFee, core.placementFee, core.totalManagementFees,
                   core.totalAdminFees, core.carry))
  }

  /* -------------------------------------------- properties of the result */

  /**
   * The fee breakdown adds up to the total fees, the net return is the gross
   * profit less the total fees, and the net exit value is the gross exit value
   * less the recurring fees and the carry.
   */
  lemma ResultAccounting(s: Scenario, o: Offer)
    requires o.pricePerShare != 0.0
    ensures TotalFees(s, o)
         == SetupFeeAmount(s, o) + PlacementFeeAmount(s, o) + TotalManagementFees(s, o) + TotalAdminFees(s, o) + Carry(s, o)
    ensures NetReturn(s, o) == GrossProfit(s, o) - TotalFees(s, o)
    ensures NetExitValue(s, o) == GrossExitValue(s, o) - (TotalFees(s, o) - UpfrontFees(s, o))
    ensures TotalCashOutlay(s, o) == s.investmentAmount + SetupFeeAmount(s, o) + PlacementFeeAmount(s, o)
  {
  }

  lemma {:induction false} FeeDragsSum(o: Offer, inv: real, gross: real, t: int, k: nat)
    requires k == 0 || k < t
    ensures Sum(FeeDrags(o, inv, gross, t, k))
         == -(ManagementFeesThrough(o, inv, gross, t, k) + AdminFeesThrough(o, inv, k))
  {
    if k > 0 {
      FeeDragsSum(o, inv, gross, t, k - 1);
      assert FeeDrags(o, inv, gross, t, k)[..k - 1] == FeeDrags(o, inv, gross, t, k - 1);
    }
  }

  /**
   * For a horizon of T >= 1 years the IRR series has T+1 entries, starts with
   * the negated cash outlay, and sums exactly to the net return (the year-T
   * NAV estimate equals the gross exit value).
   */
  lemma CashflowsSumToNetReturn(s: Scenario, o: Offer)
    requires o.pricePerShare != 0.0 && s.timeHorizon >= 1
    ensures |Cashflows(s, o)| == s.timeHorizon + 1
    ensures Cashflows(s, o)[0] == -TotalCashOutlay(s, o)
    ensures Sum(Cashflows(s, o)) == NetReturn(s, o)
  {
    SeriesSum(o, s.investmentAmount, GrossExitValue(s, o), TotalCashOutlay(s, o), Carry(s, o), s.timeHorizon);
  }

  lemma SeriesSum(o: Offer, inv: real, gross: real, outlay: real, carry: real, t: int)
    requires t >= 1
    ensures |CashflowSeries(o, inv, gross, outlay, carry, t)| == t + 1
    ensures CashflowSeries(o, inv, gross, outlay, carry, t)[0] == -outlay
    ensures Sum(CashflowSeries(o, inv, gross, outlay, carry, t))
         == gross - ManagementFeesThrough(o, inv, gross, t, t) - AdminFeesThrough(o, inv, t) - carry - outlay
  {
    var drags := if t >= 2 then FeeDrags(o, inv, gross, t, t - 1) else [];
    var last := gross - (AnnualManagementFee(o, inv, gross) + AnnualAdminFee(o, inv)) - carry;
    assert CashflowSeries(o, inv, gross, outlay, carry, t) == [-outlay] + drags + [last];
    SumOfFirstMiddleLast(-outlay, drags, last);
    FeeDragsSum(o, inv, gross, t, t - 1);
    FinalYearFees(o, inv, gross, t);
  }

  lemma SumOfFirstMiddleLast(first: real, middle: seq<real>, last: real)
    ensures Sum([first] + middle + [last]) == first + Sum(middle) + last
  {
    SumAppend([first] + middle, [last]);
    SumAppend([first], middle);
    assert Sum([first]) == first;
    assert Sum([last]) == last;
  }

  /** The fees through the final year are those through the year before plus one year at NAV = gross exit. */
  lemma FinalYearFees(o: Offer, inv: real, gross: real, t: int)
    requires t >= 1
    ensures ManagementFeesThrough(o, inv, gross, t, t)
         == ManagementFeesThrough(o, inv, gross, t, t - 1) + AnnualManagementFee(o, inv, gross)
    ensures AdminFeesThrough(o, inv, t) == AdminFeesThrough(o, inv, t - 1) + AnnualAdminFee(o, inv)
  {
    assert EstimatedNav(inv, gross, t, t) == gross by {
      assert t as real / t as real == 1.0;
    }
  }

  /** An offer with no fees and no carry keeps the whole gross profit: total fees 0, net return = gross profit, net MOIC = gross MOIC. */
  lemma FeeFreeOffer(s: Scenario, o: Offer)
    requires o.pricePerShare != 0.0
    requires o.managementFeePercent == 0.0 && o.adminFee == 0.0 && o.setupFee == 0.0
    requires o.placementFeePercent == 0.0 && o.carryPercent == 0.0
    ensures TotalFees(s, o) == 0.0 && NetReturn(s, o) == GrossProfit(s, o)
    ensures NetMoic(s, o) == GrossMoic(s, o) && TotalCashOutlay(s, o) == s.investmentAmount
  {
    var t := s.timeHorizon;
    if t > 0 {
      var inv := s.investmentAmount;
      var gross := GrossExitValue(s, o);
      if o.managementFeeBasis == Nav {
        ManagementFeesOnNav(o, inv, gross, t, t);
      } else {
        ManagementFeesOnCapital(o, inv, gross, t, t);
      }
      AdminFeesLinear(o, inv, t);
    }
  }

  /** 100,000 invested at 100 per share, exit at 300 after 3 years, no fees: 1,000 shares, 300,000 gross, 200,000 net, 3.0x. */
  lemma FeeFreeExample(o: Offer)
    requires o.pricePerShare == 100.0
    requires o.managementFeePercent == 0.0 && o.adminFee == 0.0 && o.setupFee == 0.0
    requires o.placementFeePercent == 0.0 && o.carryPercent == 0.0
    ensures var s := Scenario(100000.0, 300.0, 3, None, None);
            SharesAcquired(s, o) == 1000.0 && GrossExitValue(s, o) == 300000.0 && NetReturn(s, o) == 200000.0
            && NetMoic(s, o) == 3.0 && GrossMoic(s, o) == 3.0
  {
    FeeFreeOffer(Scenario(100000.0, 300.0, 3, None, None), o);
  }

  /* ------------------------------------------------------ scale invariance */

  /**
   * k times x. The scaling lemmas below write every scaled figure as
   * Scaled(k, x), so that the figures they pass to one another are matched
   * by their arguments rather than by reasoning about products.
   */
  function Scaled(k: real, x: real): real {
    k * x
  }

  /** The scenario with k times the investment. */
  function ScaledScenario(s: Scenario, k: real): Scenario {
    s.(investmentAmount := Scaled(k, s.investmentAmount))
  }

  /** The offer with every flat-dollar fee (a flat setup fee, a flat admin fee) multiplied by k; percentages stay. */
  function ScaledOffer(o: Offer, k: real): Offer {
    o.(setupFee := if o.setupFeeIsPercent then o.setupFee else Scaled(k, o.setupFee),
       adminFee := if o.adminFeeIsPercent then o.adminFee else Scaled(k, o.adminFee))
  }

  /** The scaled scenario differs from the original in the investment alone. */
  lemma ScaledScenarioFields(s: Scenario, k: real)
    ensures ScaledScenario(s, k).investmentAmount == Scaled(k, s.investmentAmount)
    ensures ScaledScenario(s, k).exitPricePerShare == s.exitPricePerShare
    ensures ScaledScenario(s, k).timeHorizon == s.timeHorizon
  {
  }

  /** The scaled offer differs from the original in its flat fees alone. */
  lemma ScaledOfferFields(o: Offer, k: real)
    ensures ScaledOffer(o, k).pricePerShare == o.pricePerShare
    ensures ScaledOffer(o, k).managementFeePercent == o.managementFeePercent
    ensures ScaledOffer(o, k).managementFeeBasis == o.managementFeeBasis
    ensures ScaledOffer(o, k).hurdleRatePercent == o.hurdleRatePercent
    ensures ScaledOffer(o, k).catchUpPercent == o.catchUpPercent
    ensures ScaledOffer(o, k).carryPercent == o.carryPercent
    ensures ScaledOffer(o, k).placementFeePercent == o.placementFeePercent
    ensures ScaledOffer(o, k).setupFeeIsPercent == o.setupFeeIsPercent
    ensures ScaledOffer(o, k).setupFee == if o.setupFeeIsPercent then o.setupFee else Scaled(k, o.setupFee)
    ensures ScaledOffer(o, k).adminFeeIsPercent == o.adminFeeIsPercent
    ensures ScaledOffer(o, k).adminFee == if o.adminFeeIsPercent then o.adminFee else Scaled(k, o.adminFee)
  {
  }

  /**
   * MOIC is scale-invariant: k times the investment and k times every flat
   * fee give the same gross MOIC and net MOIC, because every money figure of
   * computeCore scales by k.
   */
  lemma MoicScaleInvariant(s: Scenario, o: Offer, k: real)
    requires o.pricePerShare != 0.0 && k > 0.0
    ensures GrossMoic(ScaledScenario(s, k), ScaledOffer(o, k)) == GrossMoic(s, o)
    ensures NetMoic(ScaledScenario(s, k), ScaledOffer(o, k)) == NetMoic(s, o)
  {
    OutlayScales(s, o, k);
    GrossExitScales(s, o, k);
    NetExitScales(s, o, k);
    RatioScaleInvariant(GrossExitValue(s, o), TotalCashOutlay(s, o), k);
    RatioScaleInvariant(NetExitValue(s, o), TotalCashOutlay(s, o), k);
  }

  /** The effective fee rate is scale-invariant as well: fees and gross profit both scale by k. */
  lemma FeeRateScaleInvariant(s: Scenario, o: Offer, k: real)
    requires o.pricePerShare != 0.0 && k > 0.0
    ensures EffectiveFeeRate(ScaledScenario(s, k), ScaledOffer(o, k)) == EffectiveFeeRate(s, o)
  {
    GrossExitScales(s, o, k);
    TotalFeesScale(s, o, k);
    RatioScaleInvariant(TotalFees(s, o), GrossProfit(s, o), k);
  }

  /** A guarded quotient is unchanged when both sides are multiplied by the same positive factor. */
  lemma RatioScaleInvariant(x: real, y: real, k: real)
    requires k > 0.0
    ensures Ratio(Scaled(k, x), Scaled(k, y)) == Ratio(x, y)
  {
    ScaledSign(y, k);
    if y > 0.0 {
      var q := x / y;
      assert q * y == x;
      assert q * (k * y) == k * x;
    }
  }

  /** The net exit value scales by k. */
  lemma NetExitScales(s: Scenario, o: Offer, k: real)
    requires o.pricePerShare != 0.0 && k > 0.0
    ensures NetExitValue(ScaledScenario(s, k), ScaledOffer(o, k)) == Scaled(k, NetExitValue(s, o))
  {
    GrossExitScales(s, o, k);
    TotalManagementFeesScale(s, o, k);
    TotalAdminFeesScale(s, o, k);
    CarryScales(s, o, k);
    NetExitIsNet(s, o);
    NetExitIsNet(ScaledScenario(s, k), ScaledOffer(o, k));
    NetScales(k, GrossExitValue(s, o), TotalManagementFees(s, o), TotalAdminFees(s, o), Carry(s, o));
  }

  /** A gross figure less three deductions, the shape of NetExitValue. */
  ghost function Net(gross: real, a: real, b: real, c: real): real {
    gross - a - b - c
  }

  lemma NetExitIsNet(s: Scenario, o: Offer)
    ensures o.pricePerShare != 0.0 ==>
            NetExitValue(s, o) == Net(GrossExitValue(s, o), TotalManagementFees(s, o), TotalAdminFees(s, o), Carry(s, o))
  {
  }

  lemma NetScales(k: real, gross: real, a: real, b: real, c: real)
    ensures Net(Scaled(k, gross), Scaled(k, a), Scaled(k, b), Scaled(k, c)) == Scaled(k, Net(gross, a, b, c))
  {
  }

  /** The total of fees and carry scales by k. */
  lemma TotalFeesScale(s: Scenario, o: Offer, k: real)
    requires o.pricePerShare != 0.0 && k > 0.0
    ensures TotalFees(ScaledScenario(s, k), ScaledOffer(o, k)) == Scaled(k, TotalFees(s, o))
  {
    OutlayScales(s, o, k);
    TotalManagementFeesScale(s, o, k);
    TotalAdminFeesScale(s, o, k);
    CarryScales(s, o, k);
    TotalFeesIsSum(s, o);
    TotalFeesIsSum(ScaledScenario(s, k), ScaledOffer(o, k));
    SumScales(k, UpfrontFees(s, o), TotalManagementFees(s, o), TotalAdminFees(s, o), Carry(s, o));
  }

  /** The sum of four figures, the shape of TotalFees. */
  ghost function FeeSum(u: real, a: real, b: real, c: real): real {
    u + a + b + c
  }

  lemma TotalFeesIsSum(s: Scenario, o: Offer)
    ensures o.pricePerShare != 0.0 ==>
            TotalFees(s, o) == FeeSum(UpfrontFees(s, o), TotalManagementFees(s, o), TotalAdminFees(s, o), Carry(s, o))
  {
  }

  lemma SumScales(k: real, u: real, a: real, b: real, c: real)
    ensures FeeSum(Scaled(k, u), Scaled(k, a), Scaled(k, b), Scaled(k, c)) == Scaled(k, FeeSum(u, a, b, c))
  {
  }

  /** The upfront fees and the cash outlay scale by k. */
  lemma OutlayScales(s: Scenario, o: Offer, k: real)
    ensures UpfrontFees(ScaledScenario(s, k), ScaledOffer(o, k)) == Scaled(k, UpfrontFees(s, o))
    ensures TotalCashOutlay(ScaledScenario(s, k), ScaledOffer(o, k)) == Scaled(k, TotalCashOutlay(s, o))
  {
    ScaledScenarioFields(s, k);
    ScaledOfferFields(o, k);
    var inv := s.investmentAmount;
    var setup, placement := SetupFeeAmount(s, o), PlacementFeeAmount(s, o);
    assert PlacementFeeAmount(ScaledScenario(s, k), ScaledOffer(o, k)) == k * placement by {
      MulAssoc(k, inv, o.placementFeePercent / 100.0);
    }
    assert SetupFeeAmount(ScaledScenario(s, k), ScaledOffer(o, k)) == k * setup by {
      MulAssoc(k, inv, o.setupFee / 100.0);
    }
    assert k * setup + k * placement == k * (setup + placement);
    assert k * inv + k * (setup + placement) == k * (inv + setup + placement);
  }

  /** The gross exit value and the gross profit scale by k. */
  lemma GrossExitScales(s: Scenario, o: Offer, k: real)
    requires o.pricePerShare != 0.0
    ensures GrossExitValue(ScaledScenario(s, k), ScaledOffer(o, k)) == Scaled(k, GrossExitValue(s, o))
    ensures GrossProfit(ScaledScenario(s, k), ScaledOffer(o, k)) == Scaled(k, GrossProfit(s, o))
  {
    ScaledScenarioFields(s, k);
    ScaledOfferFields(o, k);
    var inv, price := s.investmentAmount, o.pricePerShare;
    var shares := inv / price;
    assert (k * inv) / price == k * shares by {
      assert shares * price == inv;
      assert (k * shares) * price == k * inv;
    }
    MulAssoc(k, shares, s.exitPricePerShare);
    assert k * (shares * s.exitPricePerShare) - k * inv == k * (shares * s.exitPricePerShare - inv);
  }

  /** The management fees over the horizon scale by k. */
  lemma TotalManagementFeesScale(s: Scenario, o: Offer, k: real)
    requires o.pricePerShare != 0.0
    ensures TotalManagementFees(ScaledScenario(s, k), ScaledOffer(o, k)) == Scaled(k, TotalManagementFees(s, o))
  {
    ScaledScenarioFields(s, k);
    ScaledOfferFields(o, k);
    if s.timeHorizon > 0 {
      GrossExitScales(s, o, k);
      ManagementFeesSameTerms(o, ScaledOffer(o, k), Scaled(k, s.investmentAmount), Scaled(k, GrossExitValue(s, o)),
                              s.timeHorizon, s.timeHorizon);
      ManagementFeesScale(o, s.investmentAmount, GrossExitValue(s, o), s.timeHorizon, k);
    } else {
      ScaledZero(k);
    }
  }

  /** The admin fees over the horizon scale by k. */
  lemma TotalAdminFeesScale(s: Scenario, o: Offer, k: real)
    ensures TotalAdminFees(ScaledScenario(s, k), ScaledOffer(o, k)) == Scaled(k, TotalAdminFees(s, o))
  {
    ScaledScenarioFields(s, k);
    ScaledOfferFields(o, k);
    if s.timeHorizon > 0 {
      AdminFeesScale(o, ScaledOffer(o, k), s.investmentAmount, s.timeHorizon, k);
    } else {
      ScaledZero(k);
    }
  }

  /** Management fees read the offer's management terms alone. */
  lemma {:induction false} ManagementFeesSameTerms(o: Offer, o': Offer, inv: real, gross: real, t: int, n: nat)
    requires n == 0 || n <= t
    requires o'.managementFeePercent == o.managementFeePercent && o'.managementFeeBasis == o.managementFeeBasis
    ensures ManagementFeesThrough(o', inv, gross, t, n) == ManagementFeesThrough(o, inv, gross, t, n)
  {
    if n > 0 {
      ManagementFeesSameTerms(o, o', inv, gross, t, n - 1);
    }
  }

  /** k times the investment and the gross exit value give k times the management fees over the horizon. */
  lemma ManagementFeesScale(o: Offer, inv: real, gross: real, t: int, k: real)
    requires t >= 1
    ensures ManagementFeesThrough(o, Scaled(k, inv), Scaled(k, gross), t, t) == Scaled(k, ManagementFeesThrough(o, inv, gross, t, t))
  {
    if o.managementFeeBasis == Nav {
      NavFeesScale(o, inv, gross, t, k);
    } else {
      CapitalFeesScale(o, inv, gross, t, k);
    }
  }

  lemma NavFeesScale(o: Offer, inv: real, gross: real, t: int, k: real)
    requires t >= 1 && o.managementFeeBasis == Nav
    ensures ManagementFeesThrough(o, Scaled(k, inv), Scaled(k, gross), t, t) == Scaled(k, ManagementFeesThrough(o, inv, gross, t, t))
  {
    NavFeesOverHorizon(o, inv, gross, t);
    NavFeesOverHorizon(o, Scaled(k, inv), Scaled(k, gross), t);
    NavClosedFormScales(o, t, inv, gross, k);
  }

  lemma CapitalFeesScale(o: Offer, inv: real, gross: real, t: int, k: real)
    requires t >= 1 && o.managementFeeBasis != Nav
    ensures ManagementFeesThrough(o, Scaled(k, inv), Scaled(k, gross), t, t) == Scaled(k, ManagementFeesThrough(o, inv, gross, t, t))
  {
    ManagementFeesOnCapital(o, inv, gross, t, t);
    ManagementFeesOnCapital(o, Scaled(k, inv), Scaled(k, gross), t, t);
    CapitalClosedFormScales(o, t, inv, k);
  }

  /** The closed form of ManagementFeesOnCapital is linear in the investment. */
  lemma CapitalClosedFormScales(o: Offer, t: int, inv: real, k: real)
    requires t >= 1
    ensures t as real * (Scaled(k, inv) * (o.managementFeePercent / 100.0))
         == Scaled(k, t as real * (inv * (o.managementFeePercent / 100.0)))
  {
    var n, rate := t as real, o.managementFeePercent / 100.0;
    MulAssoc(k, inv, rate);
    assert n * (k * (inv * rate)) == k * (n * (inv * rate));
  }

  /** The closed form of NavFeesOverHorizon is linear in the investment and the gross exit value. */
  lemma NavClosedFormScales(o: Offer, t: int, inv: real, gross: real, k: real)
    requires t >= 1
    ensures (o.managementFeePercent / 100.0) * (t as real * Scaled(k, inv) + (Scaled(k, gross) - Scaled(k, inv)) * ((t + 1) as real / 2.0))
         == Scaled(k, (o.managementFeePercent / 100.0) * (t as real * inv + (gross - inv) * ((t + 1) as real / 2.0)))
  {
    var rate, n, share := o.managementFeePercent / 100.0, t as real, (t + 1) as real / 2.0;
    var x := n * inv + (gross - inv) * share;
    assert n * (k * inv) == k * (n * inv);
    assert k * gross - k * inv == k * (gross - inv);
    MulAssoc(k, gross - inv, share);
    assert n * (k * inv) + (k * gross - k * inv) * share == k * x;
    assert rate * (k * x) == k * (rate * x);
  }

  /** k times the investment, with a flat admin fee also multiplied by k, gives k times the admin fees of years 1..n. */
  lemma {:induction false} AdminFeesScale(o: Offer, o': Offer, inv: real, n: nat, k: real)
    requires o'.adminFeeIsPercent == o.adminFeeIsPercent
    requires o'.adminFee == if o.adminFeeIsPercent then o.adminFee else Scaled(k, o.adminFee)
    ensures AdminFeesThrough(o', Scaled(k, inv), n) == Scaled(k, AdminFeesThrough(o, inv, n))
  {
    if n > 0 {
      AdminFeesScale(o, o', inv, n - 1, k);
      AnnualAdminFeeScales(o, o', inv, k);
      AddScales(k, AdminFeesThrough(o, inv, n - 1), AnnualAdminFee(o, inv));
    } else {
      ScaledZero(k);
    }
  }

  /** One year's admin fee scales by k. */
  lemma AnnualAdminFeeScales(o: Offer, o': Offer, inv: real, k: real)
    requires o'.adminFeeIsPercent == o.adminFeeIsPercent
    requires o'.adminFee == if o.adminFeeIsPercent then o.adminFee else Scaled(k, o.adminFee)
    ensures AnnualAdminFee(o', Scaled(k, inv)) == Scaled(k, AnnualAdminFee(o, inv))
  {
    if o.adminFeeIsPercent {
      MulAssoc(k, inv, o.adminFee / 100.0);
    }
  }

  lemma AddScales(k: real, a: real, b: real)
    ensures Scaled(k, a) + Scaled(k, b) == Scaled(k, a + b)
  {
  }

  /** Carry scales by k: the preferred return and the gross profit both do, and the waterfall is homogeneous. */
  lemma CarryScales(s: Scenario, o: Offer, k: real)
    requires o.pricePerShare != 0.0 && k > 0.0
    ensures Carry(ScaledScenario(s, k), ScaledOffer(o, k)) == Scaled(k, Carry(s, o))
  {
    ScaledScenarioFields(s, k);
    ScaledOfferFields(o, k);
    GrossExitScales(s, o, k);
    ComputeCarryScales(s.investmentAmount, GrossProfit(s, o), o.hurdleRatePercent, o.catchUpPercent, o.carryPercent,
                       s.timeHorizon, k);
  }

  lemma ComputeCarryScales(inv: real, p: real, h: real, cu: real, c: real, t: int, k: real)
    requires k > 0.0
    ensures ComputeCarry(Scaled(k, inv), Scaled(k, p), h, cu, c, t) == Scaled(k, ComputeCarry(inv, p, h, cu, c, t))
  {
    ScaledSign(p, k);
    if c > 0.0 && p > 0.0 {
      PreferredReturnScales(inv, h, t, k);
      WaterfallScales(p, PreferredReturn(inv, h, t), cu, c, k);
    } else {
      ScaledZero(k);
    }
  }

  /** The compounded preferred return is linear in the investment. */
  lemma PreferredReturnScales(inv: real, h: real, t: int, k: real)
    ensures PreferredReturn(Scaled(k, inv), h, t) == Scaled(k, PreferredReturn(inv, h, t))
  {
    if h / 100.0 > 0.0 {
      MulAssoc(k, inv, PowInt(1.0 + h / 100.0, t) - 1.0);
    } else {
      ScaledZero(k);
    }
  }

  /** The waterfall is homogeneous: k times the profit and the preferred return give k times the carry. */
  lemma WaterfallScales(p: real, pref: real, cu: real, c: real, k: real)
    requires k > 0.0
    ensures Waterfall(Scaled(k, p), Scaled(k, pref), cu, c) == Scaled(k, Waterfall(p, pref, cu, c))
  {
    ScaledOrder(p, pref, k);
    if p <= pref {
      ScaledZero(k);
    } else if cu <= 0.0 {
      assert k * p - k * pref == k * (p - pref);
      MulAssoc(k, p - pref, c / 100.0);
    } else {
      WaterfallScalesWithCatchUp(p, pref, cu, c, k);
    }
  }

  /** With a catch-up, the branch taken and the carry it gives are the same up to the factor k. */
  lemma WaterfallScalesWithCatchUp(p: real, pref: real, cu: real, c: real, k: real)
    requires k > 0.0 && p > pref && cu > 0.0
    ensures Waterfall(Scaled(k, p), Scaled(k, pref), cu, c) == Scaled(k, Waterfall(p, pref, cu, c))
  {
    CatchUpTermsScale(p, pref, c / 100.0, cu / 100.0, k);
    WaterfallWithinCatchUp(p, pref, cu, c);
    WaterfallWithinCatchUp(Scaled(k, p), Scaled(k, pref), cu, c);
    WaterfallBeyondCatchUp(p, pref, cu, c);
    WaterfallBeyondCatchUp(Scaled(k, p), Scaled(k, pref), cu, c);
  }

  /** The profit above the hurdle at which the manager has caught up to the carry rate of the whole profit. */
  ghost function CatchUpAmount(p: real, rate: real, cuRate: real): real
    requires cuRate != 0.0
  {
    p * rate / cuRate
  }

  /** The carry while the profit above the hurdle is within the catch-up amount. */
  ghost function CatchUpCarry(p: real, pref: real, cuRate: real): real {
    (p - pref) * cuRate
  }

  /** The carry once the profit above the hurdle exceeds the catch-up amount. */
  ghost function PastCatchUpCarry(p: real, pref: real, rate: real, cuRate: real): real
    requires cuRate != 0.0
  {
    CatchUpAmount(p, rate, cuRate) * cuRate + (p - pref - CatchUpAmount(p, rate, cuRate)) * rate
  }

  /** The waterfall while the profit above the hurdle is within the catch-up amount. */
  lemma WaterfallWithinCatchUp(p: real, pref: real, cu: real, c: real)
    ensures p > pref && cu > 0.0 && p - pref <= CatchUpAmount(p, c / 100.0, cu / 100.0) ==>
            Waterfall(p, pref, cu, c) == CatchUpCarry(p, pref, cu / 100.0)
  {
  }

  /** The waterfall once the profit above the hurdle exceeds the catch-up amount. */
  lemma WaterfallBeyondCatchUp(p: real, pref: real, cu: real, c: real)
    ensures p > pref && cu > 0.0 && p - pref > CatchUpAmount(p, c / 100.0, cu / 100.0) ==>
            Waterfall(p, pref, cu, c) == PastCatchUpCarry(p, pref, c / 100.0, cu / 100.0)
  {
  }

  /** The catch-up branch of the waterfall, term by term, for k times the profit and the preferred return. */
  lemma CatchUpTermsScale(p: real, pref: real, rate: real, cuRate: real, k: real)
    ensures k > 0.0 && cuRate > 0.0 && p > pref ==>
            && Scaled(k, p) > Scaled(k, pref)
            && (Scaled(k, p) - Scaled(k, pref) <= CatchUpAmount(Scaled(k, p), rate, cuRate) <==> p - pref <= CatchUpAmount(p, rate, cuRate))
            && CatchUpCarry(Scaled(k, p), Scaled(k, pref), cuRate) == Scaled(k, CatchUpCarry(p, pref, cuRate))
            && PastCatchUpCarry(Scaled(k, p), Scaled(k, pref), rate, cuRate) == Scaled(k, PastCatchUpCarry(p, pref, rate, cuRate))
  {
    if k > 0.0 && cuRate > 0.0 && p > pref {
      var above, amount := p - pref, CatchUpAmount(p, rate, cuRate);
      assert k * p - k * pref == k * above;
      PositiveProduct(k, above);
      assert CatchUpAmount(Scaled(k, p), rate, cuRate) == k * amount by {
        MulAssoc(k, p, rate);
        assert amount * cuRate == p * rate;
        assert (k * amount) * cuRate == k * (p * rate);
      }
      ScaledOrder(above, amount, k);
      MulAssoc(k, above, cuRate);
      CatchUpShareScales(amount, above, cuRate, rate, k);
    }
  }

  lemma ScaledZero(k: real)
    ensures Scaled(k, 0.0) == 0.0
  {
  }

  lemma ScaledSign(x: real, k: real)
    requires k > 0.0
    ensures Scaled(k, x) > 0.0 <==> x > 0.0
  {
    if x > 0.0 {
      PositiveProduct(k, x);
    } else {
      MonotoneProduct(x, 0.0, k);
    }
  }

  lemma ScaledOrder(x: real, y: real, k: real)
    requires k > 0.0
    ensures Scaled(k, x) <= Scaled(k, y) <==> x <= y
  {
    if x <= y {
      MonotoneProduct(x, y, k);
    } else {
      PositiveProduct(x - y, k);
    }
  }

  /** k * amount * cuRate + (k * above - k * amount) * rate == k * (amount * cuRate + (above - amount) * rate). */
  lemma CatchUpShareScales(amount: real, above: real, cuRate: real, rate: real, k: real)
    ensures (k * amount) * cuRate + (k * above - k * amount) * rate == k * (amount * cuRate + (above - amount) * rate)
  {
    MulAssoc(k, amount, cuRate);
    assert k * above - k * amount == k * (above - amount);
    MulAssoc(k, above - amount, rate);
  }

  lemma MulAssoc(k: real, x: real, y: real)
    ensures (k * x) * y == k * (x * y)
  {
  }

  /* ------------------------------------------------------------- methods */

  /** The fee loop of computeCore: management and admin fees summed over years 1..T. */
  method AccumulateFees(s: Scenario, o: Offer, grossExitValue: real) returns (totalManagementFees: real, totalAdminFees: real)
    requires o.pricePerShare != 0.0 && grossExitValue == GrossExitValue(s, o)
    ensures totalManagementFees == TotalManagementFees(s, o) && totalAdminFees == TotalAdminFees(s, o)
  {
    var investmentAmount, timeHorizon := s.investmentAmount, s.timeHorizon;
    totalManagementFees, totalAdminFees := 0.0, 0.0;
    var year := 1;
    while year <= timeHorizon
      invariant 1 <= year && (year == 1 || year <= timeHorizon + 1)
      invariant totalManagementFees == ManagementFeesThrough(o, investmentAmount, grossExitValue, timeHorizon, year - 1)
      invariant totalAdminFees == AdminFeesThrough(o, investmentAmount, year - 1)
    {
      var estimatedNav := investmentAmount + (grossExitValue - investmentAmount) * (year as real / timeHorizon as real);
      totalManagementFees := totalManagementFees + AnnualManagementFee(o, investmentAmount, estimatedNav);
      totalAdminFees := totalAdminFees + AnnualAdminFee(o, investmentAmount);
      year := year + 1;
    }
  }

  lemma ExtendFeeDrags(o: Offer, inv: real, gross: real, t: int, k: nat)
    requires 1 <= k < t
    ensures FeeDrags(o, inv, gross, t, k) == FeeDrags(o, inv, gross, t, k - 1) + [-AnnualCharge(o, inv, gross, k, t)]
  {
  }

  /** The cashflow loop of computeCore: the outlay, one charge per interim year, then the final-year inflow. */
  method BuildCashflows(o: Offer, investmentAmount: real, grossExitValue: real, totalCashOutlay: real,
                        carry: real, timeHorizon: int) returns (cashflows: seq<real>)
    ensures cashflows == CashflowSeries(o, investmentAmount, grossExitValue, totalCashOutlay, carry, timeHorizon)
  {
    cashflows := [-totalCashOutlay];
    var year := 1;
    while year < timeHorizon
      invariant 1 <= year && (year == 1 || year <= timeHorizon)
      invariant cashflows == [-totalCashOutlay] + FeeDrags(o, investmentAmount, grossExitValue, timeHorizon, year - 1)
    {
      var nav := investmentAmount + (grossExitValue - investmentAmount) * (year as real / timeHorizon as real);
      var annualFee := AnnualManagementFee(o, investmentAmount, nav) + AnnualAdminFee(o, investmentAmount);
      assert annualFee == AnnualCharge(o, investmentAmount, grossExitValue, year, timeHorizon);
      ExtendFeeDrags(o, investmentAmount, grossExitValue, timeHorizon, year);
      cashflows := cashflows + [-annualFee];
      year := year + 1;
    }
    var finalNav := grossExitValue;
    var finalFees := AnnualManagementFee(o, investmentAmount, finalNav) + AnnualAdminFee(o, investmentAmount);
    cashflows := cashflows + [grossExitValue - finalFees - carry];
  }

  /** The first block of calculateOffer: shares bought, upfront fees, total cash outlay and gross exit value. */
  method ComputeOutlay(s: Scenario, o: Offer)
    returns (sharesAcquired: real, setupFee: real, placementFee: real, upfrontFees: real,
             totalCashOutlay: real, grossExitValue: real)
    requires o.pricePerShare != 0.0
    ensures sharesAcquired == SharesAcquired(s, o) && grossExitValue == GrossExitValue(s, o)
    ensures setupFee == SetupFeeAmount(s, o) && placementFee == PlacementFeeAmount(s, o)
    ensures upfrontFees == UpfrontFees(s, o) && totalCashOutlay == TotalCashOutlay(s, o)
  {
    var investmentAmount := s.investmentAmount;
    sharesAcquired := investmentAmount / o.pricePerShare;
    placementFee := investmentAmount * (o.placementFeePercent / 100.0);
    setupFee := if o.setupFeeIsPercent then investmentAmount * (o.setupFee / 100.0) else o.setupFee;
    upfrontFees := setupFee + placementFee;
    totalCashOutlay := investmentAmount + upfrontFees;
    grossExitValue := sharesAcquired * s.exitPricePerShare;
  }

  /**
   * Computes every figure of an offer's result in statement order: outlay,
   * exit value, the fee loop over years 1..T, carry, net figures, the MOICs,
   * the cashflow loop and the effective fee rate. Returns exactly CoreOf(s, o).
   */
  method ComputeCore(s: Scenario, o: Offer) returns (core: Core)
    requires o.pricePerShare != 0.0
    ensures core == CoreOf(s, o)
  {
    var investmentAmount, timeHorizon := s.investmentAmount, s.timeHorizon;
    var sharesAcquired, setupFee, placementFee, upfrontFees, totalCashOutlay, grossExitValue := ComputeOutlay(s, o);

    var totalManagementFees, totalAdminFees := AccumulateFees(s, o, grossExitValue);

    var grossProfit := grossExitValue - investmentAmount;
    var carry := ComputeCarry(investmentAmount, grossProfit, o.hurdleRatePercent,
                              o.catchUpPercent, o.carryPercent, timeHorizon);
    assert carry == Carry(s, o);

    var netExitValue := grossExitValue - totalManagementFees - totalAdminFees - carry;
    var netReturn := netExitValue - totalCashOutlay;
    var netMoic := if totalCashOutlay > 0.0 then netExitValue / totalCashOutlay else 0.0;
    var grossMoic := if totalCashOutlay > 0.0 then grossExitValue / totalCashOutlay else 0.0;
    assert netExitValue == NetExitValue(s, o) && netReturn == NetReturn(s, o);
    assert netMoic == NetMoic(s, o) && grossMoic == GrossMoic(s, o);

    var cashflows := BuildCashflows(o, investmentAmount, grossExitValue, totalCashOutlay, carry, timeHorizon);
    assert cashflows == Cashflows(s, o);
    var netIrr := Irr.SolveIrr(cashflows);
    var totalFees := upfrontFees + totalManagementFees + totalAdminFees + carry;
    var effectiveFeeRate := if grossProfit > 0.0 then totalFees / grossProfit else 0.0;
    assert totalFees == TotalFees(s, o) && effectiveFeeRate == EffectiveFeeRate(s, o);

    core := Core(sharesAcquired, setupFee, placementFee, upfrontFees, totalCashOutlay, grossExitValue,
                 grossProfit, grossMoic, netExitValue, netReturn, netMoic, netIrr, totalFees,
                 effectiveFeeRate, totalManagementFees, totalAdminFees, carry);
  }

  /** One bisection step, given the net return at the midpoint. */
  lemma SearchStep(netReturnAt: real -> real, low: real, high: real, i: nat, netReturn: real)
    requires i < BREAK_EVEN_ITERATIONS && netReturn == netReturnAt((low + high) / 2.0)
    ensures BreakEvenSearch(netReturnAt, low, high, i)
         == if Abs(netReturn) < BREAK_EVEN_TOLERANCE then Found((low + high) / 2.0)
            else if netReturn < 0.0 then BreakEvenSearch(netReturnAt, (low + high) / 2.0, high, i + 1)
            else BreakEvenSearch(netReturnAt, low, (low + high) / 2.0, i + 1)
  {
  }

  /**
   * The loop of findBreakEvenPrice over the net return as a function of the
   * exit price: at most 100 halvings of [0, high], returning a midpoint whose
   * net return is within 0.01 of zero, or the last midpoint.
   */
  method BisectNetReturn(netReturnAt: real -> real, high: real) returns (price: real)
    ensures price == SearchPrice(BreakEvenSearch(netReturnAt, 0.0, high, 0))
  {
    ghost var outcome := BreakEvenSearch(netReturnAt, 0.0, high, 0);
    var low, high := 0.0, high;
    var i := 0;
    while i < BREAK_EVEN_ITERATIONS
      invariant 0 <= i <= BREAK_EVEN_ITERATIONS
      invariant BreakEvenSearch(netReturnAt, low, high, i) == outcome
    {
      var mid := (low + high) / 2.0;
      var netReturn := netReturnAt(mid);
      SearchStep(netReturnAt, low, high, i, netReturn);
      if Abs(netReturn) < BREAK_EVEN_TOLERANCE {
        return mid;
      }
      if netReturn < 0.0 {
        low := mid;
      } else {
        high := mid;
      }
      i := i + 1;
    }
    return (low + high) / 2.0;
  }

  /** findBreakEvenPrice: bisects the net return over the exit price on [0, 20 * pricePerShare]. */
  method FindBreakEvenPrice(s: Scenario, o: Offer) returns (price: real)
    requires o.pricePerShare != 0.0
    ensures price == BreakEvenPrice(s, o)
  {
    price := BisectNetReturn(NetReturnCurve(s, o), BreakEvenCeiling(o));
  }

  /** calculateOfferFull: the core figures plus the break-even price, labelled with the offer. */
  method CalculateOfferFull(s: Scenario, o: Offer) returns (r: CalculationResult)
    requires o.pricePerShare != 0.0
    ensures r == OfferResult(s, o)
    ensures r.offerId == o.id && r.offerName == o.name && r.offerColor == o.color
    ensures Between(r.breakEvenPrice, 0.0, o.pricePerShare * 20.0)
    ensures r.netIRR.Some? ==> Irr.InRateRange(r.netIRR.value)
  {
    var core := ComputeCore(s, o);
    var breakEvenPrice := FindBreakEvenPrice(s, o);
    BreakEvenPriceBounds(s, o);
    r := CalculationResult(
      o.id, o.name, o.color,
      core.sharesAcquired, core.upfrontFees, core.totalCashOutlay, core.grossExitValue,
      core.grossProfit, core.grossMOIC, core.netExitValue, core.netReturn, core.netMOIC,
      core.netIRR, core.totalFees, core.effectiveFeeRate, breakEvenPrice,
      FeeBreakdown(core.setupFee, core.placementFee, core.totalManagementFees,
                   core.totalAdminFees, core.carry));
  }
}
