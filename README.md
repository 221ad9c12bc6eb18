# Fee and return calculator — Dafny model

This project models the deterministic core of a private-investment fee and return calculator. For a scenario, an investor compares up to five offers to buy into the same deal. The scenario holds:

- the amount invested;
- the exit price per share;
- the holding period in years.

Each offer has its own entry price and fee terms: a setup fee, a placement fee, a management fee, an admin fee, and carried interest over a compounding hurdle with optional catch-up. The calculator does the following:

- For every offer, it computes:
  - the shares acquired and the cash outlay;
  - gross and net exit values, and gross and net MOIC;
  - a net IRR, found with Newton–Raphson that falls back to bisection;
  - the fee breakdown and the effective fee rate;
  - a break-even exit price, found by bisection.
- It sweeps the exit price over a grid, from a quarter of the scenario price to three times it.
- It validates scenarios and offers.
- It highlights the best offer per metric and shows a two-offer delta column.
- It parses user numbers such as `2.5k` or `1,000`, and clamps them.
- It keeps an ordered list of one to five offers, with add, duplicate, remove, update and toggle actions. It assigns colours from a cycle of five and fills in fields missing from older saved data.

Validation errors carry a field and a message as enumerations (`Validation.Field`, `Validation.Message`), and `FieldName` and `MessageText` give the strings the source uses. Money is modelled as `real`, and the holding period as `int`. Loops in the source become Dafny methods with loop invariants, proved equal to specification functions. The properties are lemmas about those functions. The store becomes the class `Calculator.Calculator`, and the module-level colour counter becomes `Defaults.Palette`.

Modules, one per source file:

| module | file |
|---|---|
| `Types` | record shapes |
| `Seqs` | filter and sum helpers |
| `Irr` | `src/lib/irr.ts` |
| `Calculations` | `src/lib/calculations.ts` |
| `Sensitivity` | `src/lib/sensitivity.ts` |
| `Validation` | `src/lib/validation.ts` |
| `ComparisonTable` | `src/components/ComparisonTable.tsx` |
| `NumberInput` | `src/components/NumberInput.tsx` |
| `Defaults` | `src/lib/defaults.ts` |
| `HurdleTierEditor` | `src/components/HurdleTierEditor.tsx` |
| `Calculator` | `src/hooks/useCalculator.ts` |

## Model

| member | source | states |
|---|---|---|
| Calculations.PowInt | src/lib/calculations.ts:23-25 | A power of a positive base is positive, for any integer exponent |
| Calculations.PreferredReturn | src/lib/calculations.ts:21-25 | For a non-negative investment and horizon, the compounded preferred return is never negative |
| Calculations.ComputeCarry | src/lib/calculations.ts:11-47 | Carry is never negative, whatever the inputs |
| Calculations.Waterfall | src/lib/calculations.ts:29-46 | With a zero carry rate the waterfall gives the manager nothing, catch-up or not. Its sign, its bound by the profit and its value in each catch-up branch are the rows WaterfallPositiveIff, WaterfallAtMostProfit and CarryWithCatchUp |
| Calculations.CarryPositiveIff | src/lib/calculations.ts:11-47 | Carry is never negative. It is positive iff the carry rate and the gross profit are positive and the profit exceeds the preferred return |
| Calculations.WaterfallPositiveIff | src/lib/calculations.ts:29-46 | The waterfall past the guard is non-negative, and positive exactly when profit exceeds the preferred return |
| Calculations.CarryWithoutCatchUp | src/lib/calculations.ts:29-33 | Without catch-up, carry is the carry rate times the profit above the hurdle |
| Calculations.CarryWithoutHurdleOrCatchUp | src/lib/calculations.ts:19-33 | With neither hurdle nor catch-up, carry is exactly gross profit times the carry rate |
| Calculations.CarryWithCatchUp | src/lib/calculations.ts:35-46 | Within the catch-up amount, carry is the profit above the hurdle times the catch-up rate. Beyond it, carry is gross profit times the carry rate plus the excess times the carry rate |
| Calculations.CarryAtMostProfit | src/lib/calculations.ts:11-47 | With rates in [0, 100] and a non-negative hurdle, carry lies between 0 and the gross profit |
| Calculations.WaterfallAtMostProfit | src/lib/calculations.ts:29-46 | The waterfall part of carry never exceeds the gross profit |
| Calculations.CarryFullCatchUpNoHurdle | src/lib/calculations.ts:35-46 | With full catch-up and no hurdle, carry is P·c·(2−c), which is more than the headline share P·c |
| Calculations.FullCatchUpWaterfall | src/lib/calculations.ts:35-46 | The same closed form, stated on the waterfall alone |
| Calculations.CarryBelowEightPercentHurdle | src/lib/calculations.ts:21-27 | An 8% hurdle over 3 years on 100000 has preferred return 25971.2. Any gross profit up to that amount bears no carry |
| Calculations.AnnualManagementFee | src/lib/calculations.ts:49-59 | With a non-negative rate, investment and NAV, the annual management fee is never negative |
| Calculations.AnnualAdminFee | src/lib/calculations.ts:61-66 | With a non-negative admin fee and investment, the annual admin fee, flat or percent, is never negative |
| Calculations.ManagementFeeBasisUse | src/lib/calculations.ts:49-59 | Only the `nav` basis reads the current NAV. `committed` and `invested` both charge the investment times the rate |
| Calculations.ManagementFeesOnCapital | src/lib/calculations.ts:80-87 | On a capital basis, k years of management fees are k times the annual fee |
| Calculations.ManagementFeesOnNav | src/lib/calculations.ts:80-87 | On the NAV basis, k years of fees are the rate times the sum of the yearly straight-line NAV estimates |
| Calculations.NavSumClosedForm | src/lib/calculations.ts:83-84 | The NAV estimates of years 1..k sum to k·investment + (gross exit − investment)·(1+…+k)/T, where 2·(1+…+k) = k(k+1) |
| Calculations.NavFeesOverHorizon | src/lib/calculations.ts:80-87 | On the NAV basis, the management fees over the whole horizon T are rate·(T·investment + (gross exit − investment)·(T+1)/2) |
| Calculations.AdminFeesLinear | src/lib/calculations.ts:61-66 | k years of admin fees are k times the flat or percent annual admin fee |
| Calculations.FeeDrags | src/lib/calculations.ts:101-107 | The interim cashflows number one per year before the exit year |
| Calculations.FeeDragsSum | src/lib/calculations.ts:101-107 | The interim cashflows sum to minus the management and admin fees of those years |
| Calculations.SeriesSum | src/lib/calculations.ts:100-111 | The cashflow series has T+1 entries and starts with minus the outlay. It sums to the exit inflow minus all fees and the outlay |
| Calculations.FinalYearFees | src/lib/calculations.ts:83-86 | In the final year the estimated NAV equals the gross exit value, so that year adds one annual fee at NAV = gross exit |
| Calculations.CashflowsSumToNetReturn | src/lib/calculations.ts:100-111 | For T ≥ 1 the IRR cashflows have T+1 entries, start at −totalCashOutlay and sum exactly to netReturn |
| Calculations.ResultAccounting | src/lib/calculations.ts:71-98 | Total fees are upfront + management + admin + carry. netReturn = grossProfit − totalFees. The outlay is investment + setup + placement fee |
| Calculations.Ratio | src/lib/calculations.ts:97-98 | The guarded quotient behind both MOICs and the effective fee rate (line 115): 0 when the denominator is ≤ 0, otherwise the value whose product with the denominator is the numerator |
| Calculations.FeeFreeOffer | src/lib/calculations.ts:68-123 | An offer with every fee at zero has no fees, net return equal to gross profit, and equal MOICs |
| Calculations.FeeFreeExample | src/lib/calculations.ts:68-123 | At price 100 and exit 300 on 100000, a fee-free offer returns 200000 at 3x |
| Calculations.MoicScaleInvariant | src/lib/calculations.ts:68-98 | Multiplying the investment and every flat-dollar fee (setup, admin) by any k > 0 leaves the gross MOIC and the net MOIC unchanged. Shares, outlay, exit value, management fees, admin fees, preferred return and carry all scale by k |
| Calculations.FeeRateScaleInvariant | src/lib/calculations.ts:68-115 | The same scaling leaves the effective fee rate (total fees over gross profit) unchanged |
| Calculations.AtExitPrice | src/lib/sensitivity.ts:17 | The re-priced scenario differs from the original only in its exit price |
| Calculations.BreakEvenSearchBracket | src/lib/calculations.ts:125-138 | The search returns early only at a midpoint whose net return is within 0.01 of zero. Otherwise it ends with the midpoint of a bracket inside the starting one |
| Calculations.BreakEvenPriceBounds | src/lib/calculations.ts:125-138 | The break-even price always lies in [0, 20 × pricePerShare]. An early stop happens only where the net return is within 0.01 of zero. Otherwise the final bracket is the starting width halved 100 times |
| Calculations.AccumulateFees | src/lib/calculations.ts:80-87 | The fee loop computes exactly the management and admin totals over years 1..T |
| Calculations.BuildCashflows | src/lib/calculations.ts:100-111 | The cashflow loop builds exactly the specified series |
| Calculations.ComputeOutlay | src/lib/calculations.ts:71-78 | The opening statements compute exactly the shares acquired, setup and placement fees, upfront fees, total cash outlay and gross exit value |
| Calculations.ComputeCore | src/lib/calculations.ts:68-123 | computeCore returns exactly the specified figures, cashflows and IRR |
| Calculations.BisectNetReturn | src/lib/calculations.ts:126-137 | For any net-return-at-price function and ceiling, the loop of at most 100 halvings returns exactly the price the specified search reports |
| Calculations.FindBreakEvenPrice | src/lib/calculations.ts:125-138 | Bisecting the offer's own net-return curve from [0, 20 × pricePerShare] gives exactly the specified break-even price |
| Calculations.CalculateOfferFull | src/lib/calculations.ts:140-169 | The full result carries the offer's id, name and colour, a break-even price in [0, 20p], and an IRR (when present) in [−0.99, 100] |
| Irr.Pow | src/lib/irr.ts:55 | A positive base gives a positive power |
| Irr.Npv | src/lib/irr.ts:52-58 | At a zero rate the NPV is the plain sum of the cashflows |
| Irr.BisectFrom | src/lib/irr.ts:69-84 | Bisection from a bracket returns a rate inside that bracket |
| Irr.Bisection | src/lib/irr.ts:60-85 | The result is null exactly when NPV(−0.5)·NPV(10) > 0. Otherwise it lies in [−0.5, 10] |
| Irr.NewtonFrom | src/lib/irr.ts:13-49 | Any rate the Newton phase returns, converged or from the bisection fallback, lies in [−0.99, 100] |
| Irr.Irr | src/lib/irr.ts:5-50 | Any IRR returned lies in [−0.99, 100] |
| Irr.IrrNeedsSignChange | src/lib/irr.ts:6-11 | A result requires at least two cashflows, one positive and one negative. Without them the result is null |
| Irr.IrrOfTenPercentSeries | src/lib/irr.ts:5-50 | The series −100, 0, 121 has IRR exactly 0.1 |
| Irr.NpvAtRate | src/lib/irr.ts:52-58 | The accumulation loop computes Σ c[t]/(1+r)^t |
| Irr.NpvAndDerivative | src/lib/irr.ts:16-25 | The inner loop computes NPV and its derivative −Σ t·c[t]/(1+r)^(t+1) at the current rate in one pass |
| Irr.SolveIrrBisection | src/lib/irr.ts:60-85 | The bisection loop returns the specified bisection result |
| Irr.SolveIrr | src/lib/irr.ts:5-50 | The Newton loop, with its hand-over to bisection, returns the specified IRR |
| Sensitivity.Sweep | src/lib/sensitivity.ts:15-30 | There are exactly steps + 1 points |
| Sensitivity.SweepPrices | src/lib/sensitivity.ts:9-16 | The first price is 0.25·base and the last is 3·base. Consecutive prices are 2.75·base/steps apart and strictly ascending for a positive base |
| Sensitivity.PriceAtEnds | src/lib/sensitivity.ts:9-16 | Sample 0 is 0.25·base and sample `steps` is 3·base |
| Sensitivity.PriceAtStep | src/lib/sensitivity.ts:11-16 | Consecutive samples are 2.75·base/steps apart |
| Sensitivity.PriceAtAscending | src/lib/sensitivity.ts:11-16 | For a positive base a later sample is strictly higher |
| Sensitivity.StepProductMonotone | src/lib/sensitivity.ts:16 | A positive step times a larger index gives a larger offset |
| Sensitivity.PointResultsKeys | src/lib/sensitivity.ts:21-28 | A point's result map has a key exactly for each offer id |
| Sensitivity.PointResultsLookup | src/lib/sensitivity.ts:21-28 | With distinct ids, an offer's entry is the net return, MOIC and IRR of that offer alone at that price |
| Sensitivity.SweepEntries | src/lib/sensitivity.ts:15-30 | At every point, every offer's entry is its full result at that point's exit price |
| Sensitivity.SampleResults | src/lib/sensitivity.ts:21-28 | The inner loop fills exactly the specified result map |
| Sensitivity.ComputeSensitivity | src/lib/sensitivity.ts:4-34 | The nested loops produce exactly the specified sweep |
| Validation.ScenarioErrors | src/lib/validation.ts:8-15 | Scenario errors are a subsequence of the four checks in their fixed order, and no field is named twice, since the two horizon checks exclude each other |
| Validation.ScenarioChecksKept | src/lib/validation.ts:8-15 | For any outcomes of the four checks where the two horizon checks do not both fail, the kept errors follow the rule order and name distinct fields |
| Validation.ScenarioErrorsMeaning | src/lib/validation.ts:8-15 | Each scenario error is present iff its condition holds (investment ≤ 0, exit price ≤ 0, horizon ≤ 0, horizon > 30) |
| Validation.AtMostOneHorizonError | src/lib/validation.ts:12-13 | A horizon cannot be both ≤ 0 and > 30, so a scenario gets at most three errors |
| Validation.OfferErrors | src/lib/validation.ts:17-27 | Offer errors are a subsequence of the seven checks in their fixed order, so every error is a checked one and none comes twice |
| Validation.OfferErrorsDistinctFields | src/lib/validation.ts:17-27 | No two offer errors name the same field |
| Validation.SubsequenceKeepsDistinct | src/lib/validation.ts:17-27 | Leaving errors out of a list whose fields are distinct keeps them distinct |
| Validation.OfferAmountErrorsPresence | src/lib/validation.ts:19-20 | The price and management fee errors are each present iff their condition holds |
| Validation.OfferUpfrontErrorsPresence | src/lib/validation.ts:24-25 | The setup fee and placement fee errors are each present iff their condition holds |
| Validation.OfferRateErrorsPresence | src/lib/validation.ts:21-23 | The carry and catch-up range errors and the negative-hurdle error are each present iff their condition holds |
| Validation.OfferErrorsIgnoreUncheckedFields | src/lib/validation.ts:17-27 | The admin fee, the management-fee basis and the tiers never affect the errors |
| Validation.IsScenarioValid | src/lib/validation.ts:29-31 | Valid iff investment > 0, exit price > 0 and 0 < horizon ≤ 30 |
| Validation.IsOfferValid | src/lib/validation.ts:33-35 | Valid iff every checked field is in range |
| Validation.ValidateScenario | src/lib/validation.ts:8-15 | The conditional pushes build exactly the specified error list |
| Validation.ValidateOffer | src/lib/validation.ts:17-27 | The conditional pushes build exactly the specified error list |
| ComparisonTable.FindBestIndex | src/components/ComparisonTable.tsx:27-38 | Returns −1 for fewer than two values or when all are within 0.001 of the first. Otherwise returns the first best index, which nothing beats and which strictly beats every earlier value. The result is −1 or a valid index |
| ComparisonTable.FirstBestUnique | src/components/ComparisonTable.tsx:29-34 | With strict comparison, the first best index is unique, so ties go to the lowest index |
| ComparisonTable.NullIrrNeverBest | src/components/ComparisonTable.tsx:20 | A null IRR, mapped to −999, is never best while some IRR is higher |
| ComparisonTable.DeltaOf | src/components/ComparisonTable.tsx:56-64 | "N/A" iff either value is −999. "--" iff neither is and \|b−a\| < 0.001. Otherwise the change b−a, with "+" iff it is positive |
| ComparisonTable.DeltaColumn | src/components/ComparisonTable.tsx:53-66 | A column exists iff there are exactly two results. It has one cell per metric, comparing the second result with the first |
| ComparisonTable.DeltaSwap | src/components/ComparisonTable.tsx:56-61 | Swapping the offers keeps "N/A" and "--", and negates a change, flipping the "+" |
| ComparisonTable.NullIrrDelta | src/components/ComparisonTable.tsx:20 | A null IRR on either side makes the IRR delta "N/A" |
| NumberInput.TrimStart | src/components/NumberInput.tsx:23 | Removes exactly the leading white space |
| NumberInput.TrimEnd | src/components/NumberInput.tsx:23 | Removes exactly the trailing white space |
| NumberInput.IndexOf | src/components/NumberInput.tsx:26 | Returns the first position of the character, or the length when it is absent |
| NumberInput.ScanNumeralSound | src/components/NumberInput.tsx:26 | A recognised numeral is well formed (`-?\d*\.?\d+`) and renders back to the scanned text |
| NumberInput.ScanNumeralComplete | src/components/NumberInput.tsx:26 | Every well-formed numeral's text is recognised as that numeral |
| NumberInput.MatchTokenSound | src/components/NumberInput.tsx:26-27 | A match is a numeral, white space and an optional k/m/b (either case) whose text is the input |
| NumberInput.MatchTokenComplete | src/components/NumberInput.tsx:26-27 | Every such token's text matches as that token |
| NumberInput.Multiplier | src/components/NumberInput.tsx:16-20 | No suffix multiplies by 1. A suffix multiplies by 1e3, 1e6 or 1e9 regardless of case |
| NumberInput.ParseInput | src/components/NumberInput.tsx:22-34 | An accepted input, once trimmed and stripped of commas, is the text of a valid token, and the result is that token's value |
| NumberInput.ParseInputComplete | src/components/NumberInput.tsx:22-34 | Any input that cleans to a valid token's text parses to that token's value |
| NumberInput.RenderTokenNotBare | src/components/NumberInput.tsx:24 | No valid token is the empty string or a lone "-", so the early null return never hides a match |
| NumberInput.ParseInputAccepts | src/components/NumberInput.tsx:22-34 | A token's own text, not ending in white space, parses to its value |
| NumberInput.TrailingPointRejected | src/components/NumberInput.tsx:26-27 | Digits followed by a trailing "." are rejected |
| NumberInput.ThousandsSeparatorIgnored | src/components/NumberInput.tsx:23 | A comma between two digit groups is dropped before matching: `a,b` parses to the value of the digits `ab` (so "1,000" reads as "1000") |
| NumberInput.ThousandsSuffix | src/components/NumberInput.tsx:32-33 | "2.5k" parses to 2500 |
| NumberInput.MillionsSuffix | src/components/NumberInput.tsx:26-33 | "-3 M" parses to −3000000 |
| NumberInput.Clamp | src/components/NumberInput.tsx:65-67 | The result never exceeds max. When min ≤ max it is at least min. It is the identity in range. When min > max it is max. It is always v, min or max |
| NumberInput.ClampIdempotent | src/components/NumberInput.tsx:65-67 | Clamping twice equals clamping once |
| Defaults.ColorAt | src/lib/defaults.ts:3-8 | The colour at any counter value is one of the five palette colours |
| Defaults.ColorsCycle | src/lib/defaults.ts:3-8 | The colours repeat with period 5, and five consecutive colours are all different |
| Defaults.Palette.constructor | src/lib/defaults.ts:5 | The counter starts at 0 |
| Defaults.Palette.GetNextColor | src/lib/defaults.ts:7-11 | Returns OFFER_COLORS[counter mod 5] and advances the counter by exactly one |
| Defaults.Palette.ResetColorIndex | src/lib/defaults.ts:13-15 | Sets the counter, so the next colour is OFFER_COLORS[n mod 5] |
| Defaults.DefaultScenarioValid | src/lib/defaults.ts:17-23 | The default scenario is 100000 at exit price 300 over 3 years, and it is valid |
| Defaults.DefaultOfferWith | src/lib/defaults.ts:25-45 | The default offer keeps the given id, name and colour and passes offer validation |
| Defaults.DefaultOfferFeeFree | src/lib/defaults.ts:25-45 | The default offer charges no fees, so net return equals gross profit |
| Defaults.DefaultOffer | src/lib/defaults.ts:25-45 | The default offer has price 100, zero fees, committed basis, no tiers and all flags off. It takes the palette's next colour, consuming one |
| Defaults.PresetsValid | src/lib/defaults.ts:47-71 | Either preset, applied over any offer, gives a valid offer and keeps its id |
| Defaults.PresetBFeeFree | src/lib/defaults.ts:60-71 | Preset B over an offer without an admin fee charges nothing |
| HurdleTierEditor.AddTier | src/components/HurdleTierEditor.tsx:10-21 | Appends exactly one tier and keeps the existing ones. The new tier starts at the last ceiling (or 1), is one multiple wide and carries 20% |
| HurdleTierEditor.AddTierPreserves | src/components/HurdleTierEditor.tsx:10-21 | Adding keeps the list contiguous and ascending, and keeps ids distinct for a fresh id |
| HurdleTierEditor.AddTierFromEmpty | src/components/HurdleTierEditor.tsx:11-19 | Two tiers added to an empty list span 1–2 and 2–3 |
| HurdleTierEditor.UpdateTier | src/components/HurdleTierEditor.tsx:23-25 | Keeps length, order and ids, and patches exactly the tiers with the given id |
| HurdleTierEditor.UpdateTierKeepsIds | src/components/HurdleTierEditor.tsx:23-25 | Distinct ids stay distinct, and an unknown id changes nothing |
| HurdleTierEditor.RemoveTier | src/components/HurdleTierEditor.tsx:27-29 | The list never grows, and no tier with the removed id survives |
| HurdleTierEditor.RemoveTierMeaning | src/components/HurdleTierEditor.tsx:27-29 | Exactly the tiers with that id disappear. The list shrinks when such a tier existed and is unchanged otherwise, and distinct ids stay distinct |
| HurdleTierEditor.RemoveTierSplits | src/components/HurdleTierEditor.tsx:27-29 | Removal distributes over concatenation, so the survivors keep their order |
| HurdleTierEditor.RemoveTierIdempotent | src/components/HurdleTierEditor.tsx:27-29 | Removing the same id twice equals removing it once |
| Types.ApplyOfferPatch | src/hooks/useCalculator.ts:84 | The object spread keeps the offer's id, and an empty patch leaves the offer unchanged |
| Calculator.OfferName | src/hooks/useCalculator.ts:54 | The new offer's name is "Offer " followed by the letter A–E for the current count |
| Calculator.FindOffer | src/hooks/useCalculator.ts:63 | Finds the first offer with the id, or none exactly when no offer has it |
| Calculator.MapMatching | src/hooks/useCalculator.ts:84 | Edits exactly the offers with the id and keeps the length and the other offers |
| Calculator.MapMatchingPreserves | src/hooks/useCalculator.ts:83-101 | An edit that keeps ids and non-zero prices keeps every id in place and keeps the list distinct and priced |
| Calculator.MapResults | src/hooks/useCalculator.ts:31-32 | The map loop yields exactly the full result of each offer, in offer order |
| Calculator.ResultsInOfferOrder | src/hooks/useCalculator.ts:31-35 | There is one result per offer, in offer order, each the full result of that offer |
| Calculator.RecomputeResults | src/hooks/useCalculator.ts:31-35 | Returns the per-offer results and the default 25-step sweep |
| Calculator.InitialOffersValid | src/hooks/useCalculator.ts:24-29 | The two initial offers are valid, priced, distinctly identified and differently coloured |
| Calculator.MakeInitialOffers | src/hooks/useCalculator.ts:24-29 | Resets the palette, builds Fund A and Direct / No Fees, and leaves the counter at 2 |
| Calculator.MigrateOffer | src/hooks/useCalculator.ts:120-122 | A missing setup-fee flag becomes false, a present one is kept, and no other field changes |
| Calculator.MigrateScenario | src/hooks/useCalculator.ts:118-119 | After migration the price mode is present and non-empty and the share count present and non-zero |
| Calculator.MigrationMeaning | src/hooks/useCalculator.ts:118-119 | Only a missing or falsy price mode or share count is filled ("pps", 1000000). Nothing else changes, and migrating twice equals migrating once |
| Calculator.Calculator.constructor | src/hooks/useCalculator.ts:40-43 | Starts with the default scenario, the two initial offers, no results, and a valid offer list |
| Calculator.Calculator.UpdateScenario | src/hooks/useCalculator.ts:45-49 | Merges the patch into the scenario, keeps the offers, and leaves the results in sync |
| Calculator.Calculator.AddOffer | src/hooks/useCalculator.ts:51-58 | At five offers nothing changes. Otherwise exactly one default offer named for the count is appended and the results are resynced |
| Calculator.Calculator.DuplicateOffer | src/hooks/useCalculator.ts:60-74 | At five offers or for an unknown id nothing changes. Otherwise a copy is appended with the same terms, a fresh id, the name plus " (copy)" and the next colour |
| Calculator.Calculator.RemoveOffer | src/hooks/useCalculator.ts:76-81 | Removes the offers with the id, keeping order, unless none would remain, in which case nothing changes |
| Calculator.Calculator.UpdateOffer | src/hooks/useCalculator.ts:83-87 | Merges the patch into exactly the matching offers and resyncs the results |
| Calculator.Calculator.ToggleAdvanced | src/hooks/useCalculator.ts:89-94 | Flips showAdvanced on the matching offers and leaves the results and sensitivity untouched |
| Calculator.Calculator.ToggleCollapsed | src/hooks/useCalculator.ts:96-101 | Flips collapsed on the matching offers and leaves the results and sensitivity untouched |
| Calculator.Calculator.Recompute | src/hooks/useCalculator.ts:103-107 | Keeps the scenario and offers and brings the results back in sync |
| Calculator.Calculator.Rehydrate | src/hooks/useCalculator.ts:115-131 | Installs the migrated scenario and offers. A non-empty list resets the palette to the offer count and resyncs the results |
| Calculator.AppendKeepsValid | src/hooks/useCalculator.ts:53-57 | Appending a priced offer with a fresh id to fewer than five keeps 1 ≤ \|offers\| ≤ 5, priced and distinct |
| Calculator.FilterKeepsValid | src/hooks/useCalculator.ts:76-78 | Removing by id keeps the list priced, distinct and at most five long |

## Left out

- IEEE floating point: money and rates are exact reals. NaN, Infinity, rounding and the `isFinite` check in `src/lib/irr.ts:43` are not modelled. The `isNaN` check after `parseFloat` cannot fail on a matched numeral.
- Convergence: the model does not claim that the IRR or the break-even price is a true root within the tolerances. It proves the guard, range and bracket structure of both searches. Break-even accuracy would rely on net return increasing with price, which the source never checks.
- `parseFloat`: the numeral's value is an exact decimal reading of its digits (`NumberInput.NumeralValue`), not a binary float.
- Random ids: `crypto.randomUUID` becomes a fresh-id parameter, with a precondition that it is unused.
- Persistence: local storage and the store library are not modelled. Rehydration is `Calculator.Calculator.Rehydrate`, which receives the stored scenario and offers.
- Rendering, formatting and clipboard: JSX, `src/lib/formatting.ts`, the numeric text of delta cells, the copy-as-table action and NumberInput's focus and blur handlers are not modelled. Deltas are classified, not printed.
- Tier-based carry: carry ignores `hurdleTiers`, as the source does. The tiers appear only in the editor's list operations.
- Scenario shape: the `Scenario` type in `src/types/index.ts:1-5` has no `priceMode` or `sharesOutstanding`, yet rehydration writes both. The model gives `Scenario` both as optional fields that only the migration touches.
- The −999 sentinel: a real IRR of exactly −999 would be treated like a missing one. The IRR range [−0.99, 100] rules this out for computed IRRs.
- Calculations.SharesAcquired and every evaluator function require a non-zero price per share, because they divide by it. The offer form clamps the price to at least 0.01 (`src/components/OfferCard.tsx:76-79`).
- Calculator.Calculator.UpdateOffer: requires that the patch does not set the price to zero, for the same reason.
- Calculator.Calculator.ToggleAdvanced: does not prove that the results stay in sync after the toggle. The evaluator never reads the flag, but that is not stated as a lemma.
- Calculator.Calculator.ToggleCollapsed: does not prove that the results stay in sync, for the same reason.
- NumberInput.ParseInputAccepts: covers only tokens whose text does not end in white space. A bare numeral followed by spaces is trimmed before matching, so it does not parse as that token's own text.
- Defaults.Palette.ResetColorIndex: takes a natural number, because every caller passes 0 or an offer count.
- Calculator.Calculator.Rehydrate: requires every stored offer to have a non-zero price. It proves the store valid only for one to five distinctly identified stored offers, because the source does not check the stored list.
- Calculations.FindBreakEvenPrice: each probe evaluates the net-return function `Calculations.NetReturn` at the midpoint instead of calling the `ComputeCore` method. `Calculations.ComputeCore` is proved to return exactly those figures, so the probed values are the same.
- Calculations.CashflowsSumToNetReturn: holds only for a whole-year horizon. The model's `timeHorizon` is an `int`, but the scenario form accepts fractions such as 2.5, and `validateScenario` only bounds the horizon. For a fractional T the source charges fees for years 1..⌊T⌋ (`src/lib/calculations.ts:83`), adds interim cashflows for years 1..⌈T⌉−1 and then a final entry that pays one more year of fees (lines 101-111). The compounded hurdle also gets a fractional exponent (line 24). So for T = 2.5 the series has four entries and sums to netReturn minus one final-year fee. Fractional horizons are not modelled.
- Types.OfferPatch: has no `id` field. The `Partial<Offer>` that `updateOffer` takes (`src/hooks/useCalculator.ts:83-87`) would let a caller overwrite an offer's id, but no caller in the source passes one, so patches in the model never change ids.
