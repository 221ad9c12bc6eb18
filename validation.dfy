/**
 * Field checks on the scenario and on an offer. Each check that fails adds
 * one error naming the field, in a fixed order.
 */
module Validation {
  import opened Types

  /** The fields a check can name. */
  datatype Field =
    | InvestmentAmount | ExitPricePerShare | TimeHorizon
    | PricePerShare | ManagementFeePercent | CarryPercent | HurdleRatePercent
    | CatchUpPercent | SetupFee | PlacementFeePercent

  /** The messages a check can give. */
  datatype Message = MustBePositive | Max30Years | CannotBeNegative | PercentRange

  datatype ValidationError = ValidationError(field: Field, message: Message)

  /** The property name an error carries. */
  function FieldName(f: Field): string {
    match f
    case InvestmentAmount => "investmentAmount"
    case ExitPricePerShare => "exitPricePerShare"
    case TimeHorizon => "timeHorizon"
    case PricePerShare => "pricePerShare"
    case ManagementFeePercent => "managementFeePercent"
    case CarryPercent => "carryPercent"
    case HurdleRatePercent => "hurdleRatePercent"
    case CatchUpPercent => "catchUpPercent"
    case SetupFee => "setupFee"
    case PlacementFeePercent => "placementFeePercent"
  }

  /** The text an error shows. */
  function MessageText(m: Message): string {
    match m
    case MustBePositive => "Must be positive"
    case Max30Years => "Max 30 years"
    case CannotBeNegative => "Cannot be negative"
    case PercentRange => "0-100%"
  }

  const MAX_TIME_HORIZON: int := 30

  const INVESTMENT_NOT_POSITIVE := ValidationError(InvestmentAmount, MustBePositive)
  const EXIT_PRICE_NOT_POSITIVE := ValidationError(ExitPricePerShare, MustBePositive)
  const HORIZON_NOT_POSITIVE := ValidationError(TimeHorizon, MustBePositive)
  const HORIZON_TOO_LONG := ValidationError(TimeHorizon, Max30Years)

  /** Every scenario error, in the order the checks run. */
  const SCENARIO_RULES: seq<ValidationError> :=
    [INVESTMENT_NOT_POSITIVE, EXIT_PRICE_NOT_POSITIVE, HORIZON_NOT_POSITIVE, HORIZON_TOO_LONG]

  const PRICE_NOT_POSITIVE := ValidationError(PricePerShare, MustBePositive)
  const MANAGEMENT_FEE_NEGATIVE := ValidationError(ManagementFeePercent, CannotBeNegative)
  const CARRY_OUT_OF_RANGE := ValidationError(CarryPercent, PercentRange)
  const HURDLE_NEGATIVE := ValidationError(HurdleRatePercent, CannotBeNegative)
  const CATCH_UP_OUT_OF_RANGE := ValidationError(CatchUpPercent, PercentRange)
  const SETUP_FEE_NEGATIVE := ValidationError(SetupFee, CannotBeNegative)
  const PLACEMENT_FEE_NEGATIVE := ValidationError(PlacementFeePercent, CannotBeNegative)

  /** Every offer error, in the order the checks run. */
  const OFFER_RULES: seq<ValidationError> :=
    [PRICE_NOT_POSITIVE, MANAGEMENT_FEE_NEGATIVE, CARRY_OUT_OF_RANGE, HURDLE_NEGATIVE,
     CATCH_UP_OUT_OF_RANGE, SETUP_FEE_NEGATIVE, PLACEMENT_FEE_NEGATIVE]

  /** xs is ys with some elements left out, the rest in their order. */
  predicate SubsequenceOf<T(==)>(xs: seq<T>, ys: seq<T>)
    decreases |ys|
  {
    xs == []
    || (ys != [] && ((xs[0] == ys[0] && SubsequenceOf(xs[1..], ys[1..])) || SubsequenceOf(xs, ys[1..])))
  }

  function When(failed: bool, e: ValidationError): seq<ValidationError> {
    if failed then [e] else []
  }

  /**
   * validateScenario as a function: one error per failed check, in check
   * order. Every error is a scenario rule and no field is named twice.
   */
  function ScenarioErrors(s: Scenario): (errors: seq<ValidationError>)
    ensures SubsequenceOf(errors, SCENARIO_RULES)
    ensures DistinctFields(errors)
  {
    var errors :=
      When(s.investmentAmount <= 0.0, INVESTMENT_NOT_POSITIVE)
      + When(s.exitPricePerShare <= 0.0, EXIT_PRICE_NOT_POSITIVE)
      + When(s.timeHorizon <= 0, HORIZON_NOT_POSITIVE)
      + When(s.timeHorizon > MAX_TIME_HORIZON, HORIZON_TOO_LONG);
    ScenarioChecksKept(s.investmentAmount <= 0.0, s.exitPricePerShare <= 0.0, s.timeHorizon <= 0,
                       s.timeHorizon > MAX_TIME_HORIZON);
    errors
  }

  /**
   * validateOffer as a function: one error per failed check, in check order,
   * so every error is an offer rule and none comes twice.
   */
  function OfferErrors(o: Offer): (errors: seq<ValidationError>)
    ensures SubsequenceOf(errors, OFFER_RULES)
  {
    var errors :=
      When(o.pricePerShare <= 0.0, PRICE_NOT_POSITIVE)
      + When(o.managementFeePercent < 0.0, MANAGEMENT_FEE_NEGATIVE)
      + When(o.carryPercent < 0.0 || o.carryPercent > 100.0, CARRY_OUT_OF_RANGE)
      + When(o.hurdleRatePercent < 0.0, HURDLE_NEGATIVE)
      + When(o.catchUpPercent < 0.0 || o.catchUpPercent > 100.0, CATCH_UP_OUT_OF_RANGE)
      + When(o.setupFee < 0.0, SETUP_FEE_NEGATIVE)
      + When(o.placementFeePercent < 0.0, PLACEMENT_FEE_NEGATIVE);
    assert SubsequenceOf(errors, OFFER_RULES) by {
      KeptInOrder(o.pricePerShare <= 0.0, o.managementFeePercent < 0.0, o.carryPercent < 0.0 || o.carryPercent > 100.0,
                  o.hurdleRatePercent < 0.0, o.catchUpPercent < 0.0 || o.catchUpPercent > 100.0,
                  o.setupFee < 0.0, o.placementFeePercent < 0.0, OFFER_RULES);
    }
    errors
  }

  /** The offer checks are on seven different fields, so no field gets two errors. */
  lemma OfferErrorsDistinctFields(o: Offer)
    ensures DistinctFields(OfferErrors(o))
  {
    SubsequenceKeepsDistinct(OfferErrors(o), OFFER_RULES);
  }

  /** No two errors name the same field. */
  predicate DistinctFields(errors: seq<ValidationError>) {
    forall i, j | 0 <= i < j < |errors| :: errors[i].field != errors[j].field
  }

  /** Leaving errors out of a list with distinct fields keeps the fields distinct. */
  lemma {:induction false} SubsequenceKeepsDistinct(xs: seq<ValidationError>, ys: seq<ValidationError>)
    requires SubsequenceOf(xs, ys) && DistinctFields(ys)
    ensures DistinctFields(xs)
    decreases |ys|
  {
    if xs != [] {
      if xs[0] == ys[0] && SubsequenceOf(xs[1..], ys[1..]) {
        SubsequenceKeepsDistinct(xs[1..], ys[1..]);
        SubsequenceFields(xs[1..], ys[1..]);
        forall j | 0 < j < |xs|
          ensures xs[0].field != xs[j].field
        {
          var k :| 0 <= k < |ys[1..]| && ys[1..][k].field == xs[1..][j - 1].field;
          assert ys[k + 1].field == xs[j].field;
        }
      } else {
        SubsequenceKeepsDistinct(xs, ys[1..]);
      }
    }
  }

  /** Every field of a subsequence is a field of the whole. */
  lemma {:induction false} SubsequenceFields(xs: seq<ValidationError>, ys: seq<ValidationError>)
    requires SubsequenceOf(xs, ys)
    ensures forall i | 0 <= i < |xs| :: exists k | 0 <= k < |ys| :: ys[k].field == xs[i].field
    decreases |ys|
  {
    if xs != [] {
      if xs[0] == ys[0] && SubsequenceOf(xs[1..], ys[1..]) {
        SubsequenceFields(xs[1..], ys[1..]);
        forall i | 0 < i < |xs|
          ensures exists k | 0 <= k < |ys| :: ys[k].field == xs[i].field
        {
          var k :| 0 <= k < |ys[1..]| && ys[1..][k].field == xs[1..][i - 1].field;
          assert ys[k + 1].field == xs[i].field;
        }
        assert ys[0].field == xs[0].field;
      } else {
        SubsequenceFields(xs, ys[1..]);
        forall i | 0 <= i < |xs|
          ensures exists k | 0 <= k < |ys| :: ys[k].field == xs[i].field
        {
          var k :| 0 <= k < |ys[1..]| && ys[1..][k].field == xs[i].field;
          assert ys[k + 1].field == xs[i].field;
        }
      }
    }
  }

  lemma {:induction false} SubsequenceOfLonger<T>(xs: seq<T>, ys: seq<T>, vs: seq<T>)
    requires SubsequenceOf(xs, vs)
    ensures SubsequenceOf(xs, ys + vs)
    decreases |ys|
  {
    if ys != [] {
      SubsequenceOfLonger(xs, ys[1..], vs);
      assert (ys + vs)[1..] == ys[1..] + vs;
    } else {
      assert ys + vs == vs;
    }
  }

  /** Subsequences concatenate. */
  lemma {:induction false} SubsequenceAppend<T>(xs: seq<T>, ys: seq<T>, us: seq<T>, vs: seq<T>)
    requires SubsequenceOf(xs, ys) && SubsequenceOf(us, vs)
    ensures SubsequenceOf(xs + us, ys + vs)
    decreases |ys|
  {
    if xs == [] {
      SubsequenceOfLonger(us, ys, vs);
      assert xs + us == us;
    } else {
      assert (ys + vs)[1..] == ys[1..] + vs;
      if xs[0] == ys[0] && SubsequenceOf(xs[1..], ys[1..]) {
        SubsequenceAppend(xs[1..], ys[1..], us, vs);
        assert (xs + us)[1..] == xs[1..] + us;
      } else {
        SubsequenceAppend(xs, ys[1..], us, vs);
      }
    }
  }

  lemma WhenSubsequence(failed: bool, e: ValidationError)
    ensures SubsequenceOf(When(failed, e), [e])
  {
    if failed {
      assert When(failed, e)[1..] == [];
    }
  }

  /** One more check keeps the errors a subsequence of the rules. */
  lemma ExtendSubsequence(errors: seq<ValidationError>, rules: seq<ValidationError>, failed: bool, e: ValidationError)
    requires SubsequenceOf(errors, rules)
    ensures SubsequenceOf(errors + When(failed, e), rules + [e])
  {
    WhenSubsequence(failed, e);
    SubsequenceAppend(errors, rules, When(failed, e), [e]);
  }

  /**
   * The scenario errors come in rule order, so none twice, and each one is
   * present exactly when its check fails.
   */
  lemma ScenarioErrorsMeaning(s: Scenario)
    ensures INVESTMENT_NOT_POSITIVE in ScenarioErrors(s) <==> s.investmentAmount <= 0.0
    ensures EXIT_PRICE_NOT_POSITIVE in ScenarioErrors(s) <==> s.exitPricePerShare <= 0.0
    ensures HORIZON_NOT_POSITIVE in ScenarioErrors(s) <==> s.timeHorizon <= 0
    ensures HORIZON_TOO_LONG in ScenarioErrors(s) <==> s.timeHorizon > MAX_TIME_HORIZON
  {
  }

  /**
   * The four scenario checks keep their rules in order; as the two horizon
   * checks cannot both fail, at most one horizon error is kept.
   */
  lemma ScenarioChecksKept(b0: bool, b1: bool, b2: bool, b3: bool)
    requires !(b2 && b3)
    ensures SubsequenceOf(When(b0, INVESTMENT_NOT_POSITIVE) + When(b1, EXIT_PRICE_NOT_POSITIVE)
                          + When(b2, HORIZON_NOT_POSITIVE) + When(b3, HORIZON_TOO_LONG), SCENARIO_RULES)
    ensures DistinctFields(When(b0, INVESTMENT_NOT_POSITIVE) + When(b1, EXIT_PRICE_NOT_POSITIVE)
                           + When(b2, HORIZON_NOT_POSITIVE) + When(b3, HORIZON_TOO_LONG))
  {
    var first := When(b0, INVESTMENT_NOT_POSITIVE);
    WhenSubsequence(b0, INVESTMENT_NOT_POSITIVE);
    ExtendSubsequence(first, [INVESTMENT_NOT_POSITIVE], b1, EXIT_PRICE_NOT_POSITIVE);
    var two := first + When(b1, EXIT_PRICE_NOT_POSITIVE);
    var rules := [INVESTMENT_NOT_POSITIVE, EXIT_PRICE_NOT_POSITIVE];
    ExtendSubsequence(two, rules, b2, HORIZON_NOT_POSITIVE);
    ExtendSubsequence(two + When(b2, HORIZON_NOT_POSITIVE), rules + [HORIZON_NOT_POSITIVE], b3, HORIZON_TOO_LONG);
    assert rules + [HORIZON_NOT_POSITIVE] + [HORIZON_TOO_LONG] == SCENARIO_RULES;
    var horizonRule := if b3 then HORIZON_TOO_LONG else HORIZON_NOT_POSITIVE;
    var errors := two + When(b2, HORIZON_NOT_POSITIVE) + When(b3, HORIZON_TOO_LONG);
    assert errors == two + When(b2 || b3, horizonRule) by {
      if b3 {
        assert two + When(b2, HORIZON_NOT_POSITIVE) == two;
      } else {
        assert errors == two + When(b2, HORIZON_NOT_POSITIVE) + [];
      }
    }
    ExtendSubsequence(two, rules, b2 || b3, horizonRule);
    SubsequenceKeepsDistinct(errors, rules + [horizonRule]);
  }

  /** The two horizon checks exclude each other, so at most one horizon error and at most three errors in all. */
  lemma AtMostOneHorizonError(s: Scenario)
    ensures !(HORIZON_NOT_POSITIVE in ScenarioErrors(s) && HORIZON_TOO_LONG in ScenarioErrors(s))
    ensures |ScenarioErrors(s)| <= 3
  {
  }

  /** Seven checks, each keeping its rule when it fails, keep the rules in order. */
  lemma KeptInOrder(b0: bool, b1: bool, b2: bool, b3: bool, b4: bool, b5: bool, b6: bool, rules: seq<ValidationError>)
    requires |rules| == 7
    ensures SubsequenceOf(When(b0, rules[0]) + When(b1, rules[1]) + When(b2, rules[2]) + When(b3, rules[3])
                          + When(b4, rules[4]) + When(b5, rules[5]) + When(b6, rules[6]), rules)
  {
    var errors := When(b0, rules[0]);
    WhenSubsequence(b0, rules[0]);
    ExtendSubsequence(errors, rules[..1], b1, rules[1]);
    errors := errors + When(b1, rules[1]);
    assert rules[..1] + [rules[1]] == rules[..2];
    ExtendSubsequence(errors, rules[..2], b2, rules[2]);
    errors := errors + When(b2, rules[2]);
    assert rules[..2] + [rules[2]] == rules[..3];
    ExtendSubsequence(errors, rules[..3], b3, rules[3]);
    errors := errors + When(b3, rules[3]);
    assert rules[..3] + [rules[3]] == rules[..4];
    ExtendSubsequence(errors, rules[..4], b4, rules[4]);
    errors := errors + When(b4, rules[4]);
    assert rules[..4] + [rules[4]] == rules[..5];
    ExtendSubsequence(errors, rules[..5], b5, rules[5]);
    errors := errors + When(b5, rules[5]);
    assert rules[..5] + [rules[5]] == rules[..6];
    ExtendSubsequence(errors, rules[..6], b6, rules[6]);
    assert rules[..6] + [rules[6]] == rules;
  }

  /** The price and management-fee errors are present exactly when their checks fail. */
  lemma OfferAmountErrorsPresence(o: Offer)
    ensures PRICE_NOT_POSITIVE in OfferErrors(o) <==> o.pricePerShare <= 0.0
    ensures MANAGEMENT_FEE_NEGATIVE in OfferErrors(o) <==> o.managementFeePercent < 0.0
  {
  }

  /** The setup- and placement-fee errors are present exactly when their checks fail. */
  lemma OfferUpfrontErrorsPresence(o: Offer)
    ensures SETUP_FEE_NEGATIVE in OfferErrors(o) <==> o.setupFee < 0.0
    ensures PLACEMENT_FEE_NEGATIVE in OfferErrors(o) <==> o.placementFeePercent < 0.0
  {
  }

  /** The carry, hurdle and catch-up errors are present exactly when their checks fail. */
  lemma OfferRateErrorsPresence(o: Offer)
    ensures CARRY_OUT_OF_RANGE in OfferErrors(o) <==> o.carryPercent < 0.0 || o.carryPercent > 100.0
    ensures HURDLE_NEGATIVE in OfferErrors(o) <==> o.hurdleRatePercent < 0.0
    ensures CATCH_UP_OUT_OF_RANGE in OfferErrors(o) <==> o.catchUpPercent < 0.0 || o.catchUpPercent > 100.0
  {
  }

  /** isScenarioValid: a positive investment and exit price and a horizon of 1 to 30 years. */
  function IsScenarioValid(s: Scenario): (valid: bool)
    ensures valid <==> s.investmentAmount > 0.0 && s.exitPricePerShare > 0.0
                       && 1 <= s.timeHorizon <= MAX_TIME_HORIZON
  {
    |ScenarioErrors(s)| == 0
  }

  /** isOfferValid: a positive price, non-negative fees and hurdle, carry and catch-up within 0..100. */
  function IsOfferValid(o: Offer): (valid: bool)
    ensures valid <==> o.pricePerShare > 0.0 && o.managementFeePercent >= 0.0
                       && 0.0 <= o.carryPercent <= 100.0 && o.hurdleRatePercent >= 0.0
                       && 0.0 <= o.catchUpPercent <= 100.0 && o.setupFee >= 0.0
                       && o.placementFeePercent >= 0.0
  {
    |OfferErrors(o)| == 0
  }

  /** The admin fee, the fee basis and the hurdle tiers are not checked: changing them never changes the errors. */
  lemma OfferErrorsIgnoreUncheckedFields(o: Offer, adminFee: real, basis: ManagementFeeBasis, tiers: seq<HurdleTier>)
    ensures OfferErrors(o.(adminFee := adminFee, managementFeeBasis := basis, hurdleTiers := tiers)) == OfferErrors(o)
  {
  }

  /** validateScenario: each failed check pushes its error. */
  method ValidateScenario(s: Scenario) returns (errors: seq<ValidationError>)
    ensures errors == ScenarioErrors(s)
  {
    errors := [];
    if s.investmentAmount <= 0.0 {
      errors := errors + [INVESTMENT_NOT_POSITIVE];
    }
    if s.exitPricePerShare <= 0.0 {
      errors := errors + [EXIT_PRICE_NOT_POSITIVE];
    }
    if s.timeHorizon <= 0 {
      errors := errors + [HORIZON_NOT_POSITIVE];
    }
    if s.timeHorizon > MAX_TIME_HORIZON {
      errors := errors + [HORIZON_TOO_LONG];
    }
  }

  /** validateOffer: each failed check pushes its error. */
  method ValidateOffer(o: Offer) returns (errors: seq<ValidationError>)
    ensures errors == OfferErrors(o)
  {
    errors := [];
    if o.pricePerShare <= 0.0 {
      errors := errors + [PRICE_NOT_POSITIVE];
    }
    if o.managementFeePercent < 0.0 {
      errors := errors + [MANAGEMENT_FEE_NEGATIVE];
    }
    assert errors == When(o.pricePerShare <= 0.0, PRICE_NOT_POSITIVE) + When(o.managementFeePercent < 0.0, MANAGEMENT_FEE_NEGATIVE);
    if o.carryPercent < 0.0 || o.carryPercent > 100.0 {
      errors := errors + [CARRY_OUT_OF_RANGE];
    }
    assert errors == When(o.pricePerShare <= 0.0, PRICE_NOT_POSITIVE) + When(o.managementFeePercent < 0.0, MANAGEMENT_FEE_NEGATIVE) + When(o.carryPercent < 0.0 || o.carryPercent > 100.0, CARRY_OUT_OF_RANGE);
    if o.hurdleRatePercent < 0.0 {
      errors := errors + [HURDLE_NEGATIVE];
    }
    assert errors == When(o.pricePerShare <= 0.0, PRICE_NOT_POSITIVE) + When(o.managementFeePercent < 0.0, MANAGEMENT_FEE_NEGATIVE) + When(o.carryPercent < 0.0 || o.carryPercent > 100.0, CARRY_OUT_OF_RANGE) + When(o.hurdleRatePercent < 0.0, HURDLE_NEGATIVE);
    if o.catchUpPercent < 0.0 || o.catchUpPercent > 100.0 {
      errors := errors + [CATCH_UP_OUT_OF_RANGE];
    }
    assert errors == When(o.pricePerShare <= 0.0, PRICE_NOT_POSITIVE) + When(o.managementFeePercent < 0.0, MANAGEMENT_FEE_NEGATIVE) + When(o.carryPercent < 0.0 || o.carryPercent > 100.0, CARRY_OUT_OF_RANGE) + When(o.hurdleRatePercent < 0.0, HURDLE_NEGATIVE) + When(o.catchUpPercent < 0.0 || o.catchUpPercent > 100.0, CATCH_UP_OUT_OF_RANGE);
    if o.setupFee < 0.0 {
      errors := errors + [SETUP_FEE_NEGATIVE];
    }
    assert errors == When(o.pricePerShare <= 0.0, PRICE_NOT_POSITIVE) + When(o.managementFeePercent < 0.0, MANAGEMENT_FEE_NEGATIVE) + When(o.carryPercent < 0.0 || o.carryPercent > 100.0, CARRY_OUT_OF_RANGE) + When(o.hurdleRatePercent < 0.0, HURDLE_NEGATIVE) + When(o.catchUpPercent < 0.0 || o.catchUpPercent > 100.0, CATCH_UP_OUT_OF_RANGE) + When(o.setupFee < 0.0, SETUP_FEE_NEGATIVE);
    if o.placementFeePercent < 0.0 {
      errors := errors + [PLACEMENT_FEE_NEGATIVE];
    }
  }
}
