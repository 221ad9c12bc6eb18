/**
 * The offer-list store: the scenario, up to five offers, and the results and
 * sensitivity sweep derived from them. Each action replaces the fields it
 * changes and, except for the two display toggles, recomputes the derived
 * fields. Fresh ids come from the caller, as the random UUID source is
 * outside the model.
 */
module Calculator {
  import opened Types
  import opened Seqs
  import opened Calculations
  import opened Sensitivity
  import opened Defaults

  const MAX_OFFERS: nat := 5
  const COPY_SUFFIX: string := " (copy)"
  const DEFAULT_PRICE_MODE: string := "pps"
  const DEFAULT_SHARES_OUTSTANDING: real := 1000000.0

  function OfferId(o: Offer): string {
    o.id
  }

  /** The name a newly added offer gets: "Offer " and the letter at 65 + count. */
  function OfferName(count: nat): (name: string)
    requires count < MAX_OFFERS
    ensures name == "Offer " + ["ABCDE"[count]]
  {
    "Offer " + [(65 + count) as char]
  }

  /** The first offer with the given id (Array.prototype.find). */
  function FindOffer(offers: seq<Offer>, id: string): (k: Option<nat>)
    ensures k.Some? ==> k.value < |offers| && offers[k.value].id == id
    ensures k.Some? ==> forall j | 0 <= j < k.value :: offers[j].id != id
    ensures k.None? <==> forall j | 0 <= j < |offers| :: offers[j].id != id
  {
    if offers == [] then None
    else if offers[0].id == id then Some(0)
    else
      match FindOffer(offers[1..], id)
      case None => None
      case Some(k) => Some(k + 1)
  }

  /** offers.map(o => o.id === id ? edit(o) : o). */
  function MapMatching(offers: seq<Offer>, id: string, edit: Offer -> Offer): (r: seq<Offer>)
    ensures |r| == |offers|
    ensures forall i | 0 <= i < |offers| :: r[i] == if offers[i].id == id then edit(offers[i]) else offers[i]
  {
    seq(|offers|, i requires 0 <= i < |offers| => if offers[i].id == id then edit(offers[i]) else offers[i])
  }

  /** An edit that keeps ids and a non-zero price keeps the ids distinct and every offer priced. */
  lemma MapMatchingPreserves(offers: seq<Offer>, id: string, edit: Offer -> Offer)
    requires forall o: Offer :: edit(o).id == o.id
    requires forall o: Offer :: o.pricePerShare != 0.0 ==> edit(o).pricePerShare != 0.0
    ensures DistinctKeys(offers, OfferId) ==> DistinctKeys(MapMatching(offers, id, edit), OfferId)
    ensures Priced(offers) ==> Priced(MapMatching(offers, id, edit))
    ensures forall i | 0 <= i < |offers| :: MapMatching(offers, id, edit)[i].id == offers[i].id
  {
  }

  function KeepOtherOffers(id: string): Offer -> bool {
    (o: Offer) => o.id != id
  }

  /** Every offer's full result, in offer order. */
  function ResultsOf(s: Scenario, offers: seq<Offer>): seq<CalculationResult>
    requires Priced(offers)
  {
    seq(|offers|, i requires 0 <= i < |offers| => OfferResult(s, offers[i]))
  }

  /** There is one result per offer, in offer order, each labelled with its offer. */
  lemma ResultsInOfferOrder(s: Scenario, offers: seq<Offer>)
    requires Priced(offers)
    ensures |ResultsOf(s, offers)| == |offers|
    ensures forall i | 0 <= i < |offers| ::
              ResultsOf(s, offers)[i].offerId == offers[i].id
              && ResultsOf(s, offers)[i].offerName == offers[i].name
              && ResultsOf(s, offers)[i].offerColor == offers[i].color
  {
  }

  /** recomputeResults: every offer's full result and the sensitivity sweep at the default step count. */
  method RecomputeResults(s: Scenario, offers: seq<Offer>) returns (results: seq<CalculationResult>, sensitivity: seq<SensitivityPoint>)
    requires Priced(offers)
    ensures results == ResultsOf(s, offers)
    ensures sensitivity == Sweep(s, offers, DEFAULT_STEPS)
  {
    results := MapResults(s, offers);
    sensitivity := ComputeSensitivity(s, offers, DEFAULT_STEPS);
  }

  /** offers.map(o => calculateOfferFull(scenario, o)). */
  method MapResults(s: Scenario, offers: seq<Offer>) returns (results: seq<CalculationResult>)
    requires Priced(offers)
    ensures results == ResultsOf(s, offers)
  {
    results := [];
    for k := 0 to |offers|
      invariant |results| == k
      invariant forall j | 0 <= j < k :: results[j] == ResultsOf(s, offers)[j]
    {
      var r := CalculateOfferFull(s, offers[k]);
      results := results + [r];
    }
  }

  /** The two starting offers: preset A over a default offer, then preset B over another, with the first two palette colours. */
  function InitialOffers(idA: string, idB: string): seq<Offer> {
    [ApplyOfferPatch(DefaultOfferWith(idA, "Fund A", ColorAt(0)), PRESET_OFFER_A),
     ApplyOfferPatch(DefaultOfferWith(idB, "Direct / No Fees", ColorAt(1)), PRESET_OFFER_B)]
  }

  /** The starting offers are two valid, priced offers with distinct ids and different colours. */
  lemma InitialOffersValid(idA: string, idB: string)
    requires idA != idB
    ensures |InitialOffers(idA, idB)| == 2
    ensures Priced(InitialOffers(idA, idB)) && DistinctKeys(InitialOffers(idA, idB), OfferId)
    ensures forall o | o in InitialOffers(idA, idB) :: Validation.IsOfferValid(o)
    ensures InitialOffers(idA, idB)[0].color != InitialOffers(idA, idB)[1].color
  {
    PresetsValid(DefaultOfferWith(idA, "Fund A", ColorAt(0)));
    PresetsValid(DefaultOfferWith(idB, "Direct / No Fees", ColorAt(1)));
  }

  /** makeInitialOffers: rewinds the palette, then draws one colour per starting offer. */
  method MakeInitialOffers(palette: Palette, idA: string, idB: string) returns (offers: seq<Offer>)
    modifies palette
    ensures offers == InitialOffers(idA, idB)
    ensures palette.colorIndex == 2
  {
    palette.ResetColorIndex(0);
    var a := DefaultOffer(palette, "Fund A", idA);
    a := ApplyOfferPatch(a, PRESET_OFFER_A);
    var b := DefaultOffer(palette, "Direct / No Fees", idB);
    b := ApplyOfferPatch(b, PRESET_OFFER_B);
    offers := [a, b];
  }

  /** A persisted offer: its terms, and its setup-fee flag, which data saved before the flag existed lacks. */
  datatype StoredOffer = StoredOffer(terms: Offer, setupFeeIsPercent: Option<bool>)

  /** The persisted offer after migration: a missing setup-fee flag becomes false, and nothing else changes. */
  function MigrateOffer(stored: StoredOffer): (o: Offer)
    ensures o.setupFeeIsPercent == Or(stored.setupFeeIsPercent, false)
    ensures o.(setupFeeIsPercent := stored.terms.setupFeeIsPercent) == stored.terms
  {
    if stored.setupFeeIsPercent.None? then stored.terms.(setupFeeIsPercent := false)
    else stored.terms.(setupFeeIsPercent := stored.setupFeeIsPercent.value)
  }

  function MigrateOffers(stored: seq<StoredOffer>): seq<Offer> {
    seq(|stored|, i requires 0 <= i < |stored| => MigrateOffer(stored[i]))
  }

  /** The persisted scenario after migration: an absent or empty price mode becomes "pps", absent or zero shares outstanding become 1,000,000. */
  function MigrateScenario(s: Scenario): (migrated: Scenario)
    ensures migrated.priceMode.Some? && migrated.priceMode.value != ""
    ensures migrated.sharesOutstanding.Some? && migrated.sharesOutstanding.value != 0.0
  {
    var withMode := if s.priceMode.None? || s.priceMode.value == "" then s.(priceMode := Some(DEFAULT_PRICE_MODE)) else s;
    if withMode.sharesOutstanding.None? || withMode.sharesOutstanding.value == 0.0
    then withMode.(sharesOutstanding := Some(DEFAULT_SHARES_OUTSTANDING))
    else withMode
  }

  /** Scenario migration fills only what is missing or falsy, keeps everything else, and is idempotent. */
  lemma MigrationMeaning(s: Scenario)
    ensures MigrateScenario(s).priceMode ==
              if s.priceMode.None? || s.priceMode.value == "" then Some(DEFAULT_PRICE_MODE) else s.priceMode
    ensures MigrateScenario(s).sharesOutstanding ==
              if s.sharesOutstanding.None? || s.sharesOutstanding.value == 0.0 then Some(DEFAULT_SHARES_OUTSTANDING)
              else s.sharesOutstanding
    ensures MigrateScenario(s).(priceMode := s.priceMode, sharesOutstanding := s.sharesOutstanding) == s
    ensures MigrateScenario(MigrateScenario(s)) == MigrateScenario(s)
  {
  }

  class Calculator {
    var scenario: Scenario
    var offers: seq<Offer>
    var results: seq<CalculationResult>
    var sensitivity: seq<SensitivityPoint>
    /** The colour counter behind getNextColor, shared with every other caller. */
    const palette: Palette

    /** Between one and five offers, every one priced, no two with the same id. */
    predicate Valid()
      reads this
    {
      1 <= |offers| <= MAX_OFFERS && Priced(offers) && DistinctKeys(offers, OfferId)
    }

    /** The derived fields match the scenario and offers. */
    predicate Synced()
      reads this
    {
      Priced(offers) && results == ResultsOf(scenario, offers) && sensitivity == Sweep(scenario, offers, DEFAULT_STEPS)
    }

    /** The initial store: the default scenario, the two starting offers, and nothing computed yet. */
    constructor(palette: Palette, idA: string, idB: string)
      requires idA != idB
      modifies palette
      ensures this.palette == palette && palette.colorIndex == 2
      ensures scenario == DEFAULT_SCENARIO && offers == InitialOffers(idA, idB)
      ensures results == [] && sensitivity == []
      ensures Valid()
    {
      var initial := MakeInitialOffers(palette, idA, idB);
      InitialOffersValid(idA, idB);
      this.palette := palette;
      scenario := DEFAULT_SCENARIO;
      offers := initial;
      results := [];
      sensitivity := [];
    }

    /** updateScenario: the patched scenario, with everything recomputed. */
    method UpdateScenario(updates: ScenarioPatch)
      requires Valid()
      modifies this
      ensures scenario == ApplyScenarioPatch(old(scenario), updates)
      ensures offers == old(offers)
      ensures Valid() && Synced()
    {
      var s := ApplyScenarioPatch(scenario, updates);
      var r, sens := RecomputeResults(s, offers);
      scenario, results, sensitivity := s, r, sens;
    }

    /** addOffer: at five offers nothing happens; otherwise a default offer named after its position joins the end. */
    method AddOffer(freshId: string)
      requires Valid()
      requires forall o | o in offers :: o.id != freshId
      modifies this, palette
      ensures Valid() && scenario == old(scenario)
      ensures |old(offers)| >= MAX_OFFERS ==>
                offers == old(offers) && results == old(results) && sensitivity == old(sensitivity)
                && palette.colorIndex == old(palette.colorIndex)
      ensures |old(offers)| < MAX_OFFERS ==>
                offers == old(offers) + [DefaultOfferWith(freshId, OfferName(|old(offers)|), ColorAt(old(palette.colorIndex)))]
                && palette.colorIndex == old(palette.colorIndex) + 1
                && Synced()
    {
      if |offers| >= MAX_OFFERS {
        return;
      }
      var newOffer := DefaultOffer(palette, OfferName(|offers|), freshId);
      var newOffers := offers + [newOffer];
      AppendKeepsValid(offers, newOffer);
      var r, sens := RecomputeResults(scenario, newOffers);
      offers, results, sensitivity := newOffers, r, sens;
    }

    /**
     * duplicateOffer: at five offers or for an unknown id nothing happens;
     * otherwise a copy of the first offer with that id, under a fresh id, its
     * name plus " (copy)" and the next colour, joins the end.
     */
    method DuplicateOffer(id: string, freshId: string)
      requires Valid()
      requires forall o | o in offers :: o.id != freshId
      modifies this, palette
      ensures Valid() && scenario == old(scenario)
      ensures |old(offers)| >= MAX_OFFERS || FindOffer(old(offers), id).None? ==>
                offers == old(offers) && results == old(results) && sensitivity == old(sensitivity)
                && palette.colorIndex == old(palette.colorIndex)
      ensures |old(offers)| < MAX_OFFERS && FindOffer(old(offers), id).Some? ==>
                var source := old(offers)[FindOffer(old(offers), id).value];
                offers == old(offers) + [source.(id := freshId, name := source.name + COPY_SUFFIX,
                                                 color := ColorAt(old(palette.colorIndex)))]
                && palette.colorIndex == old(palette.colorIndex) + 1
                && Synced()
    {
      if |offers| >= MAX_OFFERS {
        return;
      }
      var found := FindOffer(offers, id);
      if found.None? {
        return;
      }
      var source := offers[found.value];
      var colorSource := DefaultOffer(palette, "", freshId);
      var dup := source.(id := freshId, name := source.name + COPY_SUFFIX, color := colorSource.color);
      var newOffers := offers + [dup];
      AppendKeepsValid(offers, dup);
      var r, sens := RecomputeResults(scenario, newOffers);
      offers, results, sensitivity := newOffers, r, sens;
    }

    /** removeOffer: drops the offers with that id, keeping the order of the rest, unless none would remain. */
    method RemoveOffer(id: string)
      requires Valid()
      modifies this
      ensures Valid() && scenario == old(scenario)
      ensures Filter(old(offers), KeepOtherOffers(id)) == [] ==>
                offers == old(offers) && results == old(results) && sensitivity == old(sensitivity)
      ensures Filter(old(offers), KeepOtherOffers(id)) != [] ==>
                offers == Filter(old(offers), KeepOtherOffers(id)) && Synced()
    {
      var newOffers := Filter(offers, KeepOtherOffers(id));
      if |newOffers| == 0 {
        return;
      }
      FilterKeepsValid(offers, id);
      var r, sens := RecomputeResults(scenario, newOffers);
      offers, results, sensitivity := newOffers, r, sens;
    }

    /** updateOffer: merges the patch into the offers with that id and recomputes. The price the patch sets is non-zero, as the price field's input is clamped to at least 0.01. */
    method UpdateOffer(id: string, updates: OfferPatch)
      requires Valid()
      requires updates.pricePerShare != Some(0.0)
      modifies this
      ensures Valid() && scenario == old(scenario)
      ensures offers == MapMatching(old(offers), id, (o: Offer) => ApplyOfferPatch(o, updates))
      ensures Synced()
    {
      var edit := (o: Offer) => ApplyOfferPatch(o, updates);
      MapMatchingPreserves(offers, id, edit);
      var newOffers := MapMatching(offers, id, edit);
      var r, sens := RecomputeResults(scenario, newOffers);
      offers, results, sensitivity := newOffers, r, sens;
    }

    /** toggleAdvanced: flips the advanced-section flag of the offers with that id; nothing is recomputed. */
    method ToggleAdvanced(id: string)
      requires Valid()
      modifies this
      ensures Valid() && scenario == old(scenario)
      ensures offers == MapMatching(old(offers), id, (o: Offer) => o.(showAdvanced := !o.showAdvanced))
      ensures results == old(results) && sensitivity == old(sensitivity)
    {
      var edit := (o: Offer) => o.(showAdvanced := !o.showAdvanced);
      MapMatchingPreserves(offers, id, edit);
      offers := MapMatching(offers, id, edit);
    }

    /** toggleCollapsed: flips the collapsed flag of the offers with that id; nothing is recomputed. */
    method ToggleCollapsed(id: string)
      requires Valid()
      modifies this
      ensures Valid() && scenario == old(scenario)
      ensures offers == MapMatching(old(offers), id, (o: Offer) => o.(collapsed := !o.collapsed))
      ensures results == old(results) && sensitivity == old(sensitivity)
    {
      var edit := (o: Offer) => o.(collapsed := !o.collapsed);
      MapMatchingPreserves(offers, id, edit);
      offers := MapMatching(offers, id, edit);
    }

    /** recompute: the derived fields from the current scenario and offers. */
    method Recompute()
      requires Valid()
      modifies this
      ensures Valid() && Synced()
      ensures scenario == old(scenario) && offers == old(offers)
    {
      var r, sens := RecomputeResults(scenario, offers);
      results, sensitivity := r, sens;
    }

    /**
     * The rehydration hook: takes the persisted scenario and offers, fills in
     * fields older data lacks, and, when there are offers, moves the palette
     * past them and recomputes.
     */
    method Rehydrate(storedScenario: Scenario, stored: seq<StoredOffer>)
      requires forall k | 0 <= k < |stored| :: stored[k].terms.pricePerShare != 0.0
      modifies this, palette
      ensures scenario == MigrateScenario(storedScenario)
      ensures offers == MigrateOffers(stored)
      ensures |stored| > 0 ==> Synced() && palette.colorIndex == |stored|
      ensures |stored| == 0 ==>
                results == old(results) && sensitivity == old(sensitivity) && palette.colorIndex == old(palette.colorIndex)
      ensures 1 <= |stored| <= MAX_OFFERS && DistinctKeys(MigrateOffers(stored), OfferId) ==> Valid()
    {
      scenario := storedScenario;
      if scenario.priceMode.None? || scenario.priceMode.value == "" {
        scenario := scenario.(priceMode := Some(DEFAULT_PRICE_MODE));
      }
      if scenario.sharesOutstanding.None? || scenario.sharesOutstanding.value == 0.0 {
        scenario := scenario.(sharesOutstanding := Some(DEFAULT_SHARES_OUTSTANDING));
      }
      var migrated: seq<Offer> := [];
      for i := 0 to |stored|
        invariant migrated == MigrateOffers(stored[..i])
      {
        var o := stored[i].terms;
        if stored[i].setupFeeIsPercent.None? {
          o := o.(setupFeeIsPercent := false);
        } else {
          o := o.(setupFeeIsPercent := stored[i].setupFeeIsPercent.value);
        }
        migrated := migrated + [o];
      }
      assert stored[..|stored|] == stored;
      offers := migrated;
      if |offers| > 0 {
        palette.ResetColorIndex(|offers|);
        var r, sens := RecomputeResults(scenario, offers);
        results, sensitivity := r, sens;
      }
    }
  }

  /** Appending an offer with a fresh id and a non-zero price to fewer than five keeps the store invariant. */
  lemma AppendKeepsValid(offers: seq<Offer>, o: Offer)
    requires 1 <= |offers| < MAX_OFFERS && Priced(offers) && DistinctKeys(offers, OfferId)
    requires o.pricePerShare != 0.0 && forall p | p in offers :: p.id != o.id
    ensures var r := offers + [o]; 1 <= |r| <= MAX_OFFERS && Priced(r) && DistinctKeys(r, OfferId)
  {
    var r := offers + [o];
    forall i, j | 0 <= i < j < |r| ensures OfferId(r[i]) != OfferId(r[j]) {
      if j == |offers| {
        assert r[i] in offers;
      }
    }
  }

  /** Removing by id keeps the survivors priced and distinct, and never adds offers. */
  lemma FilterKeepsValid(offers: seq<Offer>, id: string)
    requires |offers| <= MAX_OFFERS && Priced(offers) && DistinctKeys(offers, OfferId)
    ensures var r := Filter(offers, KeepOtherOffers(id));
            |r| <= MAX_OFFERS && Priced(r) && DistinctKeys(r, OfferId)
            && forall o | o in r :: o in offers && o.id != id
  {
    var r := Filter(offers, KeepOtherOffers(id));
    FilterMembership(offers, KeepOtherOffers(id));
    FilterKeepsDistinct(offers, KeepOtherOffers(id), OfferId);
    forall k | 0 <= k < |r| ensures r[k].pricePerShare != 0.0 {
      assert r[k] in r;
      var j :| 0 <= j < |offers| && offers[j] == r[k];
    }
  }
}
