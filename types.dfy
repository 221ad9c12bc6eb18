/** The record shapes shared by the engine, the comparator and the offer-list store. */
module Types {

  datatype Option<+T> = None | Some(value: T)

  /** How the annual management fee is charged. */
  datatype ManagementFeeBasis = Committed | Invested | Nav

  /**
   * The shared exit assumptions. `timeHorizon` is a whole number of years.
   * `priceMode` and `sharesOutstanding` are not part of the declared Scenario
   * interface; only the rehydration migration of the store writes them.
   */
  datatype Scenario = Scenario(
    investmentAmount: real,
    exitPricePerShare: real,
    timeHorizon: int,
    priceMode: Option<string>,
    sharesOutstanding: Option<real>)

  /** One escalating-hurdle band. The carry computation does not read these. */
  datatype HurdleTier = HurdleTier(id: string, moicFloor: real, moicCeiling: real, carryRate: real)

  /** One investment vehicle's terms, plus two UI flags. */
  datatype Offer = Offer(
    id: string,
    name: string,
    color: string,
    pricePerShare: real,
    managementFeePercent: real,
    carryPercent: real,
    hurdleRatePercent: real,
    catchUpPercent: real,
    setupFee: real,
    setupFeeIsPercent: bool,
    placementFeePercent: real,
    showAdvanced: bool,
    managementFeeBasis: ManagementFeeBasis,
    hurdleTiers: seq<HurdleTier>,
    adminFee: real,
    adminFeeIsPercent: bool,
    collapsed: bool)

  datatype FeeBreakdown = FeeBreakdown(
    setupFee: real,
    placementFee: real,
    totalManagementFees: real,
    totalAdminFees: real,
    carry: real)

  /** The evaluated outcome of one offer under one scenario. */
  datatype CalculationResult = CalculationResult(
    offerId: string,
    offerName: string,
    offerColor: string,
    sharesAcquired: real,
    upfrontFees: real,
    totalCashOutlay: real,
    grossExitValue: real,
    grossProfit: real,
    grossMOIC: real,
    netExitValue: real,
    netReturn: real,
    netMOIC: real,
    netIRR: Option<real>,
    totalFees: real,
    effectiveFeeRate: real,
    breakEvenPrice: real,
    feeBreakdown: FeeBreakdown)

  /** The part of a result kept at each sensitivity sample. */
  datatype ReducedResult = ReducedResult(netReturn: real, netMOIC: real, netIRR: Option<real>)

  /** One exit-price sample: the price and, per offer id, the reduced result. */
  datatype SensitivityPoint = SensitivityPoint(exitPrice: real, results: map<string, ReducedResult>)

  /**
   * A partial update of an offer (every field but `id`): a present field
   * replaces the offer's, an absent one keeps it.
   */
  datatype OfferPatch = OfferPatch(
    name: Option<string>,
    color: Option<string>,
    pricePerShare: Option<real>,
    managementFeePercent: Option<real>,
    carryPercent: Option<real>,
    hurdleRatePercent: Option<real>,
    catchUpPercent: Option<real>,
    setupFee: Option<real>,
    setupFeeIsPercent: Option<bool>,
    placementFeePercent: Option<real>,
    showAdvanced: Option<bool>,
    managementFeeBasis: Option<ManagementFeeBasis>,
    hurdleTiers: Option<seq<HurdleTier>>,
    adminFee: Option<real>,
    adminFeeIsPercent: Option<bool>,
    collapsed: Option<bool>)

  const EmptyOfferPatch: OfferPatch :=
    OfferPatch(None, None, None, None, None, None, None, None, None, None, None, None, None, None, None, None)

  function Or<T>(patched: Option<T>, current: T): T {
    match patched
    case Some(v) => v
    case None => current
  }

  /** Object spread `{ ...o, ...p }`: the id is never touched, and an empty patch changes nothing. */
  function ApplyOfferPatch(o: Offer, p: OfferPatch): (patched: Offer)
    ensures patched.id == o.id
    ensures p == EmptyOfferPatch ==> patched == o
  {
    Offer(
      o.id,
      Or(p.name, o.name),
      Or(p.color, o.color),
      Or(p.pricePerShare, o.pricePerShare),
      Or(p.managementFeePercent, o.managementFeePercent),
      Or(p.carryPercent, o.carryPercent),
      Or(p.hurdleRatePercent, o.hurdleRatePercent),
      Or(p.catchUpPercent, o.catchUpPercent),
      Or(p.setupFee, o.setupFee),
      Or(p.setupFeeIsPercent, o.setupFeeIsPercent),
      Or(p.placementFeePercent, o.placementFeePercent),
      Or(p.showAdvanced, o.showAdvanced),
      Or(p.managementFeeBasis, o.managementFeeBasis),
      Or(p.hurdleTiers, o.hurdleTiers),
      Or(p.adminFee, o.adminFee),
      Or(p.adminFeeIsPercent, o.adminFeeIsPercent),
      Or(p.collapsed, o.collapsed))
  }

  /** A partial update of the scenario. */
  datatype ScenarioPatch = ScenarioPatch(
    investmentAmount: Option<real>,
    exitPricePerShare: Option<real>,
    timeHorizon: Option<int>)

  function ApplyScenarioPatch(s: Scenario, p: ScenarioPatch): Scenario {
    s.(investmentAmount := Or(p.investmentAmount, s.investmentAmount),
       exitPricePerShare := Or(p.exitPricePerShare, s.exitPricePerShare),
       timeHorizon := Or(p.timeHorizon, s.timeHorizon))
  }

  /** A partial update of a hurdle tier (every field but `id`). */
  datatype TierPatch = TierPatch(moicFloor: Option<real>, moicCeiling: Option<real>, carryRate: Option<real>)

  function ApplyTierPatch(t: HurdleTier, p: TierPatch): HurdleTier {
    t.(moicFloor := Or(p.moicFloor, t.moicFloor),
       moicCeiling := Or(p.moicCeiling, t.moicCeiling),
       carryRate := Or(p.carryRate, t.carryRate))
  }

  function Abs(x: real): real {
    if x < 0.0 then -x else x
  }
}
