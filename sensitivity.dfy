/**
 * The exit-price sensitivity sweep: steps+1 evenly spaced exit prices from
 * 25% to 300% of the scenario's exit price, and at each one every offer's
 * net return, net MOIC and net IRR.
 */
module Sensitivity {
  import opened Types
  import opened Seqs
  import opened Calculations

  const DEFAULT_STEPS: nat := 25
  const MIN_PRICE_FACTOR: real := 0.25
  const MAX_PRICE_FACTOR: real := 3.0

  /** Every offer can be evaluated. */
  predicate Priced(offers: seq<Offer>) {
    forall k | 0 <= k < |offers| :: offers[k].pricePerShare != 0.0
  }

  /** The i-th sample price: minPrice + stepSize * i. */
  function PriceAt(basePrice: real, steps: nat, i: nat): real
    requires steps >= 1
  {
    var minPrice := basePrice * MIN_PRICE_FACTOR;
    var maxPrice := basePrice * MAX_PRICE_FACTOR;
    var stepSize := (maxPrice - minPrice) / steps as real;
    minPrice + stepSize * i as real
  }

  /** The three figures a sample keeps of a full result. */
  function Reduce(r: CalculationResult): ReducedResult {
    ReducedResult(r.netReturn, r.netMOIC, r.netIRR)
  }

  /** The results object of one sample: each offer's reduced result under its id, a later offer overwriting an earlier one with the same id. */
  function PointResults(s: Scenario, offers: seq<Offer>): map<string, ReducedResult>
    requires Priced(offers)
  {
    if offers == [] then map[]
    else
      var last := offers[|offers| - 1];
      PointResults(s, offers[..|offers| - 1])[last.id := Reduce(OfferResult(s, last))]
  }

  function SamplePoint(s: Scenario, offers: seq<Offer>, steps: nat, i: nat): SensitivityPoint
    requires steps >= 1 && Priced(offers)
  {
    var exitPrice := PriceAt(s.exitPricePerShare, steps, i);
    SensitivityPoint(exitPrice, PointResults(AtExitPrice(s, exitPrice), offers))
  }

  /** computeSensitivity as a function of its inputs. */
  function Sweep(s: Scenario, offers: seq<Offer>, steps: nat): (points: seq<SensitivityPoint>)
    requires steps >= 1 && Priced(offers)
    ensures |points| == steps + 1
  {
    seq(steps + 1, i requires 0 <= i <= steps => SamplePoint(s, offers, steps, i))
  }

  /** The sample prices run from 25% to 300% of the base price, in equal steps, ascending when the base price is positive. */
  lemma SweepPrices(s: Scenario, offers: seq<Offer>, steps: nat)
    requires steps >= 1 && Priced(offers)
    ensures Sweep(s, offers, steps)[0].exitPrice == s.exitPricePerShare * 0.25
    ensures Sweep(s, offers, steps)[steps].exitPrice == s.exitPricePerShare * 3.0
    ensures forall i | 0 <= i < steps ::
              Sweep(s, offers, steps)[i + 1].exitPrice - Sweep(s, offers, steps)[i].exitPrice
              == s.exitPricePerShare * 2.75 / steps as real
    ensures s.exitPricePerShare > 0.0 ==>
              forall i, j | 0 <= i < j <= steps ::
                Sweep(s, offers, steps)[i].exitPrice < Sweep(s, offers, steps)[j].exitPrice
  {
    var b := s.exitPricePerShare;
    var points := Sweep(s, offers, steps);
    assert points[0].exitPrice == PriceAt(b, steps, 0);
    assert points[steps].exitPrice == PriceAt(b, steps, steps);
    PriceAtEnds(b, steps);
    forall i | 0 <= i < steps
      ensures points[i + 1].exitPrice - points[i].exitPrice == b * 2.75 / steps as real
    {
      assert points[i + 1].exitPrice == PriceAt(b, steps, i + 1);
      assert points[i].exitPrice == PriceAt(b, steps, i);
      PriceAtStep(b, steps, i);
    }
    if b > 0.0 {
      forall i, j | 0 <= i < j <= steps
        ensures points[i].exitPrice < points[j].exitPrice
      {
        assert points[i].exitPrice == PriceAt(b, steps, i);
        assert points[j].exitPrice == PriceAt(b, steps, j);
        PriceAtAscending(b, steps, i, j);
      }
    }
  }

  lemma PriceAtEnds(b: real, steps: nat)
    requires steps >= 1
    ensures PriceAt(b, steps, 0) == b * 0.25 && PriceAt(b, steps, steps) == b * 3.0
  {
    var step := (b * 3.0 - b * 0.25) / steps as real;
    assert step * steps as real == b * 2.75;
  }

  lemma PriceAtStep(b: real, steps: nat, i: nat)
    requires steps >= 1
    ensures PriceAt(b, steps, i + 1) - PriceAt(b, steps, i) == b * 2.75 / steps as real
  {
    var step := (b * 3.0 - b * 0.25) / steps as real;
    assert step * (i + 1) as real == step * i as real + step;
  }

  lemma PriceAtAscending(b: real, steps: nat, i: nat, j: nat)
    requires steps >= 1 && b > 0.0 && i < j
    ensures PriceAt(b, steps, i) < PriceAt(b, steps, j)
  {
    var step := (b * 3.0 - b * 0.25) / steps as real;
    assert step > 0.0;
    StepProductMonotone(step, i, j);
  }

  lemma StepProductMonotone(step: real, i: nat, j: nat)
    requires step > 0.0 && i < j
    ensures step * i as real < step * j as real
  {
    assert step * j as real - step * i as real == step * (j - i) as real;
  }

  /** A sample has an entry for exactly the ids of the offers. */
  lemma {:induction false} PointResultsKeys(s: Scenario, offers: seq<Offer>)
    requires Priced(offers)
    ensures forall id :: id in PointResults(s, offers) <==> exists k | 0 <= k < |offers| :: offers[k].id == id
  {
    if offers != [] {
      var init := offers[..|offers| - 1];
      PointResultsKeys(s, init);
      forall id | (exists k | 0 <= k < |offers| :: offers[k].id == id)
        ensures id in PointResults(s, offers)
      {
        var k :| 0 <= k < |offers| && offers[k].id == id;
        if k < |offers| - 1 {
          assert init[k].id == id;
        }
      }
      forall id | id in PointResults(s, offers)
        ensures exists k | 0 <= k < |offers| :: offers[k].id == id
      {
        if id != offers[|offers| - 1].id {
          assert id in PointResults(s, init);
          var k :| 0 <= k < |init| && init[k].id == id;
          assert offers[k].id == id;
        }
      }
    }
  }

  /**
   * When ids are distinct, each offer's entry is its own reduced result under
   * that sample's scenario: no offer's figures depend on another's.
   */
  lemma {:induction false} PointResultsLookup(s: Scenario, offers: seq<Offer>, k: nat)
    requires Priced(offers) && DistinctKeys(offers, (o: Offer) => o.id) && k < |offers|
    ensures offers[k].id in PointResults(s, offers)
    ensures PointResults(s, offers)[offers[k].id] == Reduce(OfferResult(s, offers[k]))
  {
    var init := offers[..|offers| - 1];
    if k < |offers| - 1 {
      assert DistinctKeys(init, (o: Offer) => o.id);
      PointResultsLookup(s, init, k);
      assert init[k] == offers[k];
      assert offers[k].id != offers[|offers| - 1].id;
    }
  }

  /** Every sample of the sweep evaluates each offer under the base scenario with only the exit price replaced. */
  lemma SweepEntries(s: Scenario, offers: seq<Offer>, steps: nat, i: nat, k: nat)
    requires steps >= 1 && Priced(offers) && DistinctKeys(offers, (o: Offer) => o.id)
    requires i <= steps && k < |offers|
    ensures var p := Sweep(s, offers, steps)[i];
            offers[k].id in p.results
            && p.results[offers[k].id] == Reduce(OfferResult(s.(exitPricePerShare := p.exitPrice), offers[k]))
  {
    PointResultsLookup(AtExitPrice(s, PriceAt(s.exitPricePerShare, steps, i)), offers, k);
  }

  /** The inner loop of computeSensitivity: one sample's results object. */
  method SampleResults(testScenario: Scenario, offers: seq<Offer>) returns (results: map<string, ReducedResult>)
    requires Priced(offers)
    ensures results == PointResults(testScenario, offers)
  {
    results := map[];
    for k := 0 to |offers|
      invariant results == PointResults(testScenario, offers[..k])
    {
      assert offers[..k + 1][..k] == offers[..k];
      var full := CalculateOfferFull(testScenario, offers[k]);
      results := results[offers[k].id := Reduce(full)];
    }
    assert offers[..|offers|] == offers;
  }

  /** computeSensitivity: one sample per step, each evaluating every offer at that exit price. */
  method ComputeSensitivity(s: Scenario, offers: seq<Offer>, steps: nat) returns (points: seq<SensitivityPoint>)
    requires steps >= 1 && Priced(offers)
    ensures points == Sweep(s, offers, steps)
  {
    var minPrice := s.exitPricePerShare * MIN_PRICE_FACTOR;
    var maxPrice := s.exitPricePerShare * MAX_PRICE_FACTOR;
    var stepSize := (maxPrice - minPrice) / steps as real;
    points := [];
    for i := 0 to steps + 1
      invariant |points| == i
      invariant forall j | 0 <= j < i :: points[j] == SamplePoint(s, offers, steps, j)
    {
      var exitPrice := minPrice + stepSize * i as real;
      assert exitPrice == PriceAt(s.exitPricePerShare, steps, i);
      var testScenario := s.(exitPricePerShare := exitPrice);
      assert testScenario == AtExitPrice(s, exitPrice);
      var results := SampleResults(testScenario, offers);
      var point := SensitivityPoint(exitPrice, results);
      assert point == SamplePoint(s, offers, steps, i);
      points := points + [point];
    }
  }
}
