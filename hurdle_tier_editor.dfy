/**
 * The escalating-hurdle tier list editor: append a tier that starts where the
 * last one ends, patch the tier with a given id, remove the tiers with a
 * given id. Each edit builds a new list.
 */
module HurdleTierEditor {
  import opened Types
  import opened Seqs

  const FIRST_FLOOR: real := 1.0
  const DEFAULT_TIER_CARRY: real := 20.0

  /** Each tier's floor is the previous tier's ceiling. */
  predicate Contiguous(tiers: seq<HurdleTier>) {
    forall i | 0 < i < |tiers| :: tiers[i].moicFloor == tiers[i - 1].moicCeiling
  }

  /** Every tier's floor lies below its ceiling. */
  predicate Ascending(tiers: seq<HurdleTier>) {
    forall i | 0 <= i < |tiers| :: tiers[i].moicFloor < tiers[i].moicCeiling
  }

  function TierId(t: HurdleTier): string {
    t.id
  }

  /** addTier: one new tier one multiple wide at 20% carry, starting at the last ceiling, or at 1x for an empty list. */
  function AddTier(tiers: seq<HurdleTier>, freshId: string): (r: seq<HurdleTier>)
    ensures |r| == |tiers| + 1 && r[..|tiers|] == tiers
    ensures r[|tiers|].id == freshId && r[|tiers|].carryRate == DEFAULT_TIER_CARRY
    ensures r[|tiers|].moicCeiling == r[|tiers|].moicFloor + 1.0
    ensures r[|tiers|].moicFloor == if tiers == [] then FIRST_FLOOR else tiers[|tiers| - 1].moicCeiling
  {
    var lastCeiling := if |tiers| > 0 then tiers[|tiers| - 1].moicCeiling else FIRST_FLOOR;
    tiers + [HurdleTier(freshId, lastCeiling, lastCeiling + 1.0, DEFAULT_TIER_CARRY)]
  }

  /** Adding a tier keeps a contiguous, ascending list contiguous and ascending, and keeps ids distinct when the new id is fresh. */
  lemma AddTierPreserves(tiers: seq<HurdleTier>, freshId: string)
    ensures Contiguous(tiers) ==> Contiguous(AddTier(tiers, freshId))
    ensures Ascending(tiers) ==> Ascending(AddTier(tiers, freshId))
    ensures DistinctKeys(tiers, TierId) && (forall t | t in tiers :: t.id != freshId) ==>
              DistinctKeys(AddTier(tiers, freshId), TierId)
  {
    var r := AddTier(tiers, freshId);
    assert forall i | 0 <= i < |tiers| :: r[i] == tiers[i];
    if DistinctKeys(tiers, TierId) && (forall t | t in tiers :: t.id != freshId) {
      forall i, j | 0 <= i < j < |r| ensures TierId(r[i]) != TierId(r[j]) {
        if j == |tiers| {
          assert r[i] in tiers;
        }
      }
    }
  }

  /** Tiers added one after another to an empty list start at 1x and stay contiguous. */
  lemma AddTierFromEmpty(id1: string, id2: string)
    ensures AddTier(AddTier([], id1), id2)[0].moicFloor == 1.0
    ensures AddTier(AddTier([], id1), id2)[1].moicFloor == 2.0
    ensures AddTier(AddTier([], id1), id2)[1].moicCeiling == 3.0
  {
  }

  /** updateTier: the tiers with the given id get the patch; the list keeps its length, order and ids. */
  function UpdateTier(tiers: seq<HurdleTier>, id: string, updates: TierPatch): (r: seq<HurdleTier>)
    ensures |r| == |tiers|
    ensures forall i | 0 <= i < |tiers| :: r[i].id == tiers[i].id
    ensures forall i | 0 <= i < |tiers| && tiers[i].id != id :: r[i] == tiers[i]
    ensures forall i | 0 <= i < |tiers| && tiers[i].id == id :: r[i] == ApplyTierPatch(tiers[i], updates)
  {
    seq(|tiers|, i requires 0 <= i < |tiers| => if tiers[i].id == id then ApplyTierPatch(tiers[i], updates) else tiers[i])
  }

  /** Updating never merges or splits ids, and an id no tier carries leaves the list unchanged. */
  lemma UpdateTierKeepsIds(tiers: seq<HurdleTier>, id: string, updates: TierPatch)
    ensures DistinctKeys(tiers, TierId) ==> DistinctKeys(UpdateTier(tiers, id, updates), TierId)
    ensures (forall t | t in tiers :: t.id != id) ==> UpdateTier(tiers, id, updates) == tiers
  {
  }

  function KeepOtherIds(id: string): HurdleTier -> bool {
    (t: HurdleTier) => t.id != id
  }

  /** removeTier: the tiers whose id differs, in their original order; no tier with that id survives. */
  function RemoveTier(tiers: seq<HurdleTier>, id: string): (kept: seq<HurdleTier>)
    ensures |kept| <= |tiers|
    ensures forall t | t in kept :: t in tiers && t.id != id
  {
    FilterMembership(tiers, KeepOtherIds(id));
    Filter(tiers, KeepOtherIds(id))
  }

  /** Exactly the tiers with that id disappear; the survivors keep their order and stay distinct. */
  lemma RemoveTierMeaning(tiers: seq<HurdleTier>, id: string)
    ensures forall t :: t in RemoveTier(tiers, id) <==> t in tiers && t.id != id
    ensures (exists t | t in tiers :: t.id == id) ==> |RemoveTier(tiers, id)| < |tiers|
    ensures (forall t | t in tiers :: t.id != id) ==> RemoveTier(tiers, id) == tiers
    ensures DistinctKeys(tiers, TierId) ==> DistinctKeys(RemoveTier(tiers, id), TierId)
  {
    FilterMembership(tiers, KeepOtherIds(id));
    if exists t | t in tiers :: t.id == id {
      RemoveDropsOne(tiers, id);
    }
    if forall t | t in tiers :: t.id != id {
      FilterKeepsAll(tiers, KeepOtherIds(id));
    }
    if DistinctKeys(tiers, TierId) {
      FilterKeepsDistinct(tiers, KeepOtherIds(id), TierId);
    }
  }

  lemma {:induction false} RemoveDropsOne(tiers: seq<HurdleTier>, id: string)
    requires exists t | t in tiers :: t.id == id
    ensures |RemoveTier(tiers, id)| < |tiers|
  {
    var init := tiers[..|tiers| - 1];
    var last := tiers[|tiers| - 1];
    FilterMembership(init, KeepOtherIds(id));
    if last.id != id {
      var t :| t in tiers && t.id == id;
      assert tiers == init + [last];
      assert t in init;
      RemoveDropsOne(init, id);
    }
  }

  /** Removal works piecewise over a split list, so the survivors keep their relative order. */
  lemma RemoveTierSplits(front: seq<HurdleTier>, back: seq<HurdleTier>, id: string)
    ensures RemoveTier(front + back, id) == RemoveTier(front, id) + RemoveTier(back, id)
  {
    FilterAppend(front, back, KeepOtherIds(id));
  }

  /** Removing a tier and then an id no longer present changes nothing further. */
  lemma RemoveTierIdempotent(tiers: seq<HurdleTier>, id: string)
    ensures RemoveTier(RemoveTier(tiers, id), id) == RemoveTier(tiers, id)
  {
    FilterMembership(tiers, KeepOtherIds(id));
    FilterKeepsAll(RemoveTier(tiers, id), KeepOtherIds(id));
  }
}
