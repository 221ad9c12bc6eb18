/**
 * Starting values: the default scenario, the default offer, the two preset
 * offers, and the colour palette whose counter hands each new offer the next
 * colour in a cycle of five.
 */
module Defaults {
  import opened Types
  import opened Calculations
  import opened Validation

  const OFFER_COLORS: seq<string> := ["#6366f1", "#14b8a6", "#f59e0b", "#f43f5e", "#8b5cf6"]

  /** The colour handed out when the counter stands at i. */
  function ColorAt(i: nat): (color: string)
    ensures color in OFFER_COLORS
  {
    OFFER_COLORS[i % |OFFER_COLORS|]
  }

  /** The colours repeat every five offers, and any five consecutive offers get five different colours. */
  lemma ColorsCycle(i: nat)
    ensures ColorAt(i + 5) == ColorAt(i)
    ensures forall j | i < j < i + 5 :: ColorAt(j) != ColorAt(i)
  {
    forall j | i < j < i + 5 ensures ColorAt(j) != ColorAt(i) {
      var d := j - i;
      assert j % 5 != i % 5 by {
        assert j == i + d && 1 <= d <= 4;
      }
    }
  }

  /** The module-level colour counter shared by every caller of getNextColor. */
  class Palette {
    var colorIndex: nat

    constructor()
      ensures colorIndex == 0
    {
      colorIndex := 0;
    }

    /** getNextColor: the colour at the counter, advancing the counter by one. */
    method GetNextColor() returns (color: string)
      modifies this
      ensures color == ColorAt(old(colorIndex))
      ensures colorIndex == old(colorIndex) + 1
    {
      color := OFFER_COLORS[colorIndex % |OFFER_COLORS|];
      colorIndex := colorIndex + 1;
    }

    /** resetColorIndex: the next colour handed out is ColorAt(count). */
    method ResetColorIndex(count: nat)
      modifies this
      ensures colorIndex == count
    {
      colorIndex := count;
    }
  }

  const DEFAULT_SCENARIO: Scenario := Scenario(100000.0, 300.0, 3, None, None)

  /** The default scenario passes scenario validation. */
  lemma DefaultScenarioValid()
    ensures IsScenarioValid(DEFAULT_SCENARIO)
    ensures DEFAULT_SCENARIO.investmentAmount == 100000.0 && DEFAULT_SCENARIO.exitPricePerShare == 300.0
    ensures DEFAULT_SCENARIO.timeHorizon == 3
  {
  }

  /**
   * A default offer with its id, name and colour decided: price 100, no fees,
   * committed basis, no tiers, all flags off. It passes offer validation.
   */
  function DefaultOfferWith(id: string, name: string, color: string): (o: Offer)
    ensures o.id == id && o.name == name && o.color == color
    ensures IsOfferValid(o)
  {
    Offer(id, name, color, 100.0, 0.0, 0.0, 0.0, 0.0, 0.0, false, 0.0, false, Committed, [], 0.0, false, false)
  }

  /** The default offer charges nothing: under any scenario, net return equals gross profit. */
  lemma DefaultOfferFeeFree(s: Scenario, id: string, name: string, color: string)
    ensures TotalFees(s, DefaultOfferWith(id, name, color)) == 0.0
    ensures NetReturn(s, DefaultOfferWith(id, name, color)) == GrossProfit(s, DefaultOfferWith(id, name, color))
  {
    FeeFreeOffer(s, DefaultOfferWith(id, name, color));
  }

  /**
   * defaultOffer: the id is the caller's, or a fresh one the caller drew;
   * the colour is the palette's next, which advances the counter.
   */
  method DefaultOffer(palette: Palette, name: string, id: string) returns (o: Offer)
    modifies palette
    ensures o == DefaultOfferWith(id, name, ColorAt(old(palette.colorIndex)))
    ensures palette.colorIndex == old(palette.colorIndex) + 1
  {
    var color := palette.GetNextColor();
    o := DefaultOfferWith(id, name, color);
  }

  /** Preset "Fund A": 2% management fee, 20% carry over an 8% hurdle with full catch-up, at 100 per share. */
  const PRESET_OFFER_A: OfferPatch :=
    EmptyOfferPatch.(name := Some("Fund A"), pricePerShare := Some(100.0), managementFeePercent := Some(2.0),
                     carryPercent := Some(20.0), hurdleRatePercent := Some(8.0), catchUpPercent := Some(100.0),
                     setupFee := Some(0.0), placementFeePercent := Some(0.0))

  /** Preset "Direct / No Fees": 120 per share and every fee zero. */
  const PRESET_OFFER_B: OfferPatch :=
    EmptyOfferPatch.(name := Some("Direct / No Fees"), pricePerShare := Some(120.0), managementFeePercent := Some(0.0),
                     carryPercent := Some(0.0), hurdleRatePercent := Some(0.0), catchUpPercent := Some(0.0),
                     setupFee := Some(0.0), placementFeePercent := Some(0.0))

  /** Either preset, applied to any offer, sets every field the validator checks to an accepted value. */
  lemma PresetsValid(o: Offer)
    ensures IsOfferValid(ApplyOfferPatch(o, PRESET_OFFER_A))
    ensures IsOfferValid(ApplyOfferPatch(o, PRESET_OFFER_B))
    ensures ApplyOfferPatch(o, PRESET_OFFER_A).id == o.id && ApplyOfferPatch(o, PRESET_OFFER_B).id == o.id
  {
  }

  /** Preset B on an offer without an admin fee charges nothing: net return equals gross profit. */
  lemma PresetBFeeFree(s: Scenario, o: Offer)
    requires o.adminFee == 0.0
    ensures TotalFees(s, ApplyOfferPatch(o, PRESET_OFFER_B)) == 0.0
    ensures NetReturn(s, ApplyOfferPatch(o, PRESET_OFFER_B)) == GrossProfit(s, ApplyOfferPatch(o, PRESET_OFFER_B))
  {
    FeeFreeOffer(s, ApplyOfferPatch(o, PRESET_OFFER_B));
  }
}
