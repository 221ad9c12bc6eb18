/**
 * The comparison table's logic: which metrics it shows and in which direction
 * each is better, the "best offer" highlight per metric, and the two-offer
 * delta column. Formatting and rendering are not modelled.
 */
module ComparisonTable {
  import opened Types

  /** The rows of the table, in display order. */
  datatype Metric =
    | SharesAcquired | TotalCashOutlay | GrossMoic | NetMoic | NetIrr
    | NetReturn | TotalFees | EffectiveFeeRate | BreakEvenPrice

  const METRICS: seq<Metric> :=
    [SharesAcquired, TotalCashOutlay, GrossMoic, NetMoic, NetIrr, NetReturn, TotalFees, EffectiveFeeRate, BreakEvenPrice]

  /** Stands in for an undetermined IRR when values are compared. */
  const NULL_IRR: real := -999.0
  /** Values closer than this count as equal. */
  const TIE_TOLERANCE: real := 0.001

  function RawValue(m: Metric, r: CalculationResult): real {
    match m
    case SharesAcquired => r.sharesAcquired
    case TotalCashOutlay => r.totalCashOutlay
    case GrossMoic => r.grossMOIC
    case NetMoic => r.netMOIC
    case NetIrr => if r.netIRR.Some? then r.netIRR.value else NULL_IRR
    case NetReturn => r.netReturn
    case TotalFees => r.totalFees
    case EffectiveFeeRate => r.effectiveFeeRate
    case BreakEvenPrice => r.breakEvenPrice
  }

  function HigherIsBetter(m: Metric): bool {
    m in {SharesAcquired, GrossMoic, NetMoic, NetIrr, NetReturn}
  }

  /** x is strictly better than y. */
  predicate Beats(x: real, y: real, higherIsBetter: bool) {
    if higherIsBetter then x > y else x < y
  }

  /** Index k holds a best value, and every earlier value is strictly worse. */
  predicate IsFirstBest(values: seq<real>, higherIsBetter: bool, k: int) {
    && 0 <= k < |values|
    && (forall j | 0 <= j < |values| :: !Beats(values[j], values[k], higherIsBetter))
    && (forall j | 0 <= j < k :: Beats(values[k], values[j], higherIsBetter))
  }

  /** Every value is within the tie tolerance of the first. */
  predicate AllSame(values: seq<real>)
    requires |values| > 0
  {
    forall v | v in values :: Abs(v - values[0]) < TIE_TOLERANCE
  }

  /** At most one index is the first best, so IsFirstBest pins the highlight down. */
  lemma FirstBestUnique(values: seq<real>, higherIsBetter: bool, k1: int, k2: int)
    requires IsFirstBest(values, higherIsBetter, k1) && IsFirstBest(values, higherIsBetter, k2)
    ensures k1 == k2
  {
    assert !Beats(values[k1], values[k2], higherIsBetter);
    assert !Beats(values[k2], values[k1], higherIsBetter);
  }

  /** An undetermined IRR is never highlighted as best while some offer has an IRR above the sentinel. */
  lemma NullIrrNeverBest(results: seq<CalculationResult>, k: int, j: int)
    requires 0 <= k < |results| && 0 <= j < |results|
    requires results[k].netIRR.None? && RawValue(NetIrr, results[j]) > NULL_IRR
    ensures !IsFirstBest(seq(|results|, i requires 0 <= i < |results| => RawValue(NetIrr, results[i])), HigherIsBetter(NetIrr), k)
  {
    var values := seq(|results|, i requires 0 <= i < |results| => RawValue(NetIrr, results[i]));
    assert Beats(values[j], values[k], true);
  }

  /**
   * findBestIndex: -1 for fewer than two values or when all lie within 0.001
   * of the first; otherwise the first index holding the best value.
   */
  method FindBestIndex(values: seq<real>, higherIsBetter: bool) returns (best: int)
    ensures |values| <= 1 ==> best == -1
    ensures |values| >= 2 && AllSame(values) ==> best == -1
    ensures |values| >= 2 && !AllSame(values) ==> IsFirstBest(values, higherIsBetter, best)
    ensures best == -1 || 0 <= best < |values|
  {
    if |values| <= 1 {
      return -1;
    }
    var bestIdx := 0;
    for i := 1 to |values|
      invariant 0 <= bestIdx < i
      invariant forall j | 0 <= j < i :: !Beats(values[j], values[bestIdx], higherIsBetter)
      invariant forall j | 0 <= j < bestIdx :: Beats(values[bestIdx], values[j], higherIsBetter)
    {
      if (if higherIsBetter then values[i] > values[bestIdx] else values[i] < values[bestIdx]) {
        bestIdx := i;
      }
    }
    var allSame := forall v | v in values :: Abs(v - values[0]) < TIE_TOLERANCE;
    best := if allSame then -1 else bestIdx;
  }

  /** How a delta is written: as a multiple, a percentage or an amount. */
  datatype DeltaUnit = Multiple | Percentage | Amount

  function UnitOf(m: Metric): DeltaUnit {
    if m == NetMoic || m == GrossMoic then Multiple
    else if m == NetIrr || m == EffectiveFeeRate then Percentage
    else Amount
  }

  /** One delta cell: not applicable, unchanged ("--"), or the signed change b - a with a "+" exactly when it is positive. */
  datatype Delta = NotApplicable | Unchanged | Change(diff: real, plus: bool, unit: DeltaUnit)

  function DeltaOf(a: real, b: real, unit: DeltaUnit): (d: Delta)
    ensures d == NotApplicable <==> a == NULL_IRR || b == NULL_IRR
    ensures d == Unchanged <==> a != NULL_IRR && b != NULL_IRR && Abs(b - a) < TIE_TOLERANCE
    ensures d.Change? ==> d.diff == b - a && Abs(d.diff) >= TIE_TOLERANCE && (d.plus <==> d.diff > 0.0) && d.unit == unit
  {
    if a == NULL_IRR || b == NULL_IRR then NotApplicable
    else
      var diff := b - a;
      if Abs(diff) < TIE_TOLERANCE then Unchanged
      else Change(diff, diff > 0.0, unit)
  }

  /** deltaColumn: present only for exactly two results, one cell per metric comparing the second result with the first. */
  function DeltaColumn(results: seq<CalculationResult>): (column: Option<seq<Delta>>)
    ensures column.Some? <==> |results| == 2
    ensures column.Some? ==>
              |column.value| == |METRICS|
              && forall i | 0 <= i < |METRICS| ::
                   column.value[i] == DeltaOf(RawValue(METRICS[i], results[0]), RawValue(METRICS[i], results[1]), UnitOf(METRICS[i]))
  {
    if |results| != 2 then None
    else Some(seq(|METRICS|, i requires 0 <= i < |METRICS| =>
                  DeltaOf(RawValue(METRICS[i], results[0]), RawValue(METRICS[i], results[1]), UnitOf(METRICS[i]))))
  }

  /** Swapping the two offers keeps "N/A" and "--" and negates a change, moving the "+" to the other side. */
  lemma DeltaSwap(a: real, b: real, unit: DeltaUnit)
    ensures DeltaOf(a, b, unit).NotApplicable? <==> DeltaOf(b, a, unit).NotApplicable?
    ensures DeltaOf(a, b, unit).Unchanged? <==> DeltaOf(b, a, unit).Unchanged?
    ensures DeltaOf(a, b, unit).Change? ==>
              DeltaOf(b, a, unit).Change?
              && DeltaOf(b, a, unit).diff == -DeltaOf(a, b, unit).diff
              && DeltaOf(b, a, unit).plus == !DeltaOf(a, b, unit).plus
  {
  }

  /** An undetermined IRR on either side makes the IRR delta "N/A", whatever the other side holds. */
  lemma NullIrrDelta(r0: CalculationResult, r1: CalculationResult)
    requires r0.netIRR.None? || r1.netIRR.None?
    ensures DeltaOf(RawValue(NetIrr, r0), RawValue(NetIrr, r1), UnitOf(NetIrr)) == NotApplicable
  {
  }
}
