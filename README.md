# Carbon-Wise lifecycle engine, modelled in Dafny

Carbon-Wise estimates the lifecycle CO2 of Indian passenger vehicles and
recommends low-carbon choices. This project models its computational core
and proves properties of it.

- **The lifecycle-carbon engine** (`backend/src/services/lca-engine.js`):
  - the per-km operational emission for each fuel type;
  - the manufacturing heuristic and the disposal penalty;
  - the lifecycle aggregation, with its usage-pattern multiplier and its rounding at the output;
  - the linear EV-versus-combustion break-even;
  - the month-by-month accumulation timeline on a decarbonising grid;
  - the total cost of ownership;
  - the five-rule greenwash audit.
- **The decision logic of the calculation routes** (`backend/src/routes/calculate.js`):
  - the stable ascending sort by lifecycle total;
  - the three-pass diversity selection of up to three recommendations;
  - their ranks and labels;
  - the average total of the candidates;
  - the size check on a comparison request;
  - the enumeration of every electric/combustion pair for the break-even analysis.
- **The grid route's two threshold classifiers** (`backend/src/routes/grid.js`): a colour and a category for a grid intensity.

## Modules

| file | module | contents |
|---|---|---|
| `values.dfy` | `Values` | The number conventions and the records. `Math.round` is `Round`, and rounding to fixed decimals is `RoundScaled`. A nullable column is an `Option<real>`: `Num` reads null as 0, `Truthy` is JS truthiness, and `OrDefault` is `x \|\| d`. Also the `FuelType`, `UsagePattern` and `Vehicle` records, with `ParseFuelType` and `ParseUsagePattern` reading the two string columns. |
| `lca_engine.dfy` | `LcaEngine` | Rates, manufacturing, disposal, lifecycle, break-even, TCO and greenwash audit. |
| `timeline.dfy` | `LcaTimeline` | The monthly timeline loop, its reference function and the corrected timeline (see Findings). |
| `ranking.dfy` | `Ranking` | `SortByTotal`, a stable insertion sort on values, proved sorted, a permutation and stable. |
| `recommend.dfy` | `Recommend` | The three selection passes as loops over the sorted candidates, their reference `Scan`, ranks, labels and the average. |
| `compare.dfy` | `Compare` | The request size check, the fuel-type filters and the nested break-even loops. |
| `grid.dfy` | `Grid` | The colour and category classifiers and an independent band index. |

## Modelling decisions

**Numbers and values**
- **Quantities** are unbounded `real`s. Rounding happens only where the engine calls `Math.round`, as `Round(x) = Floor(x + 1/2)`.
- **Formulas that divide by the efficiency** require `Efficiency(v) > 0`, because IEEE-754 infinities are not modelled.
- **Nullable columns.** A missing value is `None`. The JS coercions that matter are written out:
  - `null > 5` is false;
  - `x || d` treats 0 like null;
  - `vehicle.battery_capacity_kwh ? … : 0` is a truthiness test.
- **Fuel types** are a datatype with a case `Unrecognised(name)` for any other string. The lifecycle calculation and the timeline therefore have a real error path: `Result.Err(UnknownFuelType(name))` models the `throw`.
  - The TCO gives a zero fuel cost for such a type instead of throwing.
  - The greenwash audit simply finds fewer rules for it.
- **Usage patterns** are `City | Highway | Mixed | OtherPattern(name)`. Any other string is weighted 1.0. `ParseUsagePattern` yields only well-formed values, where an other pattern is never one of the three names; the lemmas about other patterns assume that.

**Route logic**
- **The library sort.** `Array.prototype.sort` is a library call, so it is modelled by a stable insertion sort on values. Its three properties are proved: ascending, a permutation, and equal totals keep their input order. ECMAScript requires those of the library sort.
- **Object identity.** The route's `diverse.includes(item)` compares objects by identity, and every candidate is a distinct object. The selection therefore records the *positions* of the picks in the sorted list (`picks`), next to the picked items (`diverse`).
- **Reference functions.** Each loop of the source is a `method` with a `for`/`while` loop, and each is proved equal to a recursive reference function whose properties are proved as lemmas:
  - the three selection passes are three methods, one per pass, over `Scan`;
  - the break-even pairs use `Pairs`, generic over the record built for each pair;
  - the timeline uses `Timeline`;
  - the audit uses `Audit`.

**Behaviour of the code that its own comments do not suggest**
- **`total_kg`** is `Math.round` of the unrounded sum, so it can differ by one from the sum of the three rounded parts (`Assemble`).
- **A non-positive emission debt** gives a non-positive break-even distance, which can round to 0 but is never clamped to 0 by a guard (`BreakevenPoint`, last two ensures).
- **The disposal figure** never shows in the timeline. See Findings.

## Model

| member | source | states |
|---|---|---|
| `Values.Round` | backend/src/services/lca-engine.js:101-104 | `Math.round`: the result is within half a unit of `x`, with halves going up |
| `Values.RoundScaled` | backend/src/services/lca-engine.js:105 | `Math.round(x*scale)/scale` is within `0.5/scale` of `x` and has at most that many decimals |
| `Values.RoundSumOfThree` | backend/src/services/lca-engine.js:98-104 | rounding the sum of three parts is within 1 of the sum of the rounded parts |
| `Values.RoundSumOfFour` | backend/src/services/lca-engine.js:254-258 | for four parts the difference is at most 2 |
| `Values.RoundScaledIdempotent` | backend/src/services/lca-engine.js:175 | re-rounding an amount that already has the decimals changes nothing |
| `Values.OrDefault` | backend/src/services/lca-engine.js:92 | `x \|\| d`: the value when it is truthy; `d` when it is null or 0 |
| `Values.Num` | backend/src/services/lca-engine.js:92 | a null column reads 0, and a non-zero reading is the column's own value |
| `Values.Truthy` | backend/src/services/lca-engine.js:93 | a column is truthy exactly when it reads as a non-zero number |
| `Values.Includes` | backend/src/services/lca-engine.js:295 | `includes`: true exactly when some position of the string starts an occurrence of the other (`At`), so the other is never longer |
| `Values.ParseFuelType` | backend/src/services/lca-engine.js:32-59 | the five names of the switch read as their fuel types; any other string is unrecognised and keeps its text |
| `Values.ParseUsagePattern` | backend/src/services/lca-engine.js:75-79 | CITY, HIGHWAY and MIXED read as their patterns; any other string is an other pattern that keeps its text and is none of the three |
| `Values.OrZeroIsNum` | backend/src/services/lca-engine.js:191 | `x \|\| 0` is the plain numeric reading of the column |
| `LcaEngine.OperationalEmissionPerKm` | backend/src/services/lca-engine.js:29-61 | fails exactly for an unrecognised fuel type, with that type's name; rate × MIDC efficiency is 2.31, 2.68 or 2.75 for petrol, diesel and CNG, and grid × 1.15 for an electric vehicle |
| `LcaEngine.RateFor` | backend/src/services/lca-engine.js:32-60 | the five-way switch fails exactly in its default case; rate × efficiency is the fuel's factor, or grid × 1.15 for electricity |
| `LcaEngine.RateIsPositive` | backend/src/services/lca-engine.js:33-56 | petrol, diesel and CNG rates are positive; so are electric and hybrid rates on a grid with positive intensity; a hybrid's is positive on any non-negative grid |
| `LcaEngine.RateReadsFuelEfficiencyBattery` | backend/src/services/lca-engine.js:29-56 | two records that agree on fuel type, MIDC efficiency and battery capacity have the same rate |
| `LcaEngine.HybridIsBlend` | backend/src/services/lca-engine.js:49-56 | a hybrid's rate is 0.65 × its petrol rate plus 0.35 × the electric rate at 1.3 × the efficiency (the consumption ÷ 1.3), the latter only when it has a battery figure |
| `LcaEngine.RateFallsWithEfficiency` | backend/src/services/lca-engine.js:33-56 | better mileage gives a strictly lower rate, for every known fuel (EV on a positive grid, hybrid on any non-negative grid) |
| `LcaEngine.HybridRateFalls` | backend/src/services/lca-engine.js:49-56 | a hybrid's rate falls strictly with efficiency, with or without a battery figure, on any non-negative grid |
| `LcaEngine.EstimateManufacturingEmissions` | backend/src/services/lca-engine.js:118-130 | 4 × kerb weight (1200 when null or 0) plus 150 × battery kWh (null reads 0) |
| `LcaEngine.EstimateBounds` | backend/src/services/lca-engine.js:118-130 | the estimate is at least the weight term, and at least 4800 when the weight is unknown |
| `LcaEngine.ManufacturingKg` | backend/src/services/lca-engine.js:85 | the explicit figure when truthy, the estimate otherwise |
| `LcaEngine.ZeroManufacturingIsAbsent` | backend/src/services/lca-engine.js:85 | a 0 manufacturing figure is treated exactly like a missing one |
| `LcaEngine.ManufacturingIgnoresDisposal` | backend/src/services/lca-engine.js:118-130 | the manufacturing figure never reads the disposal column |
| `LcaEngine.DisposalKg` | backend/src/services/lca-engine.js:92-96 | the disposal figure (null reads 0), times 1.5 exactly when there is no recycling programme and the battery exceeds 5 kWh |
| `LcaEngine.Assemble` | backend/src/services/lca-engine.js:98-111 | each `_kg` field rounds its own unrounded value; `total_kg` rounds the unrounded sum and is within 1 of the parts' sum; `emission_per_km` has 3 decimals; the inputs are echoed |
| `LcaEngine.CalculateLifecycleEmissions` | backend/src/services/lca-engine.js:73-112 | fails exactly for an unrecognised fuel. Otherwise it assembles manufacturing, rate × multiplier over `daily × 365 × years` km, and disposal |
| `LcaEngine.UsagePatternOrdering` | backend/src/services/lca-engine.js:75-89 | a larger usage multiplier never lowers the operational or the total figure (CITY ≥ MIXED ≥ HIGHWAY) |
| `LcaEngine.UsageMultiplier` | backend/src/services/lca-engine.js:75-79 | the multiplier lies between the HIGHWAY and the CITY value, and is the MIXED value exactly for MIXED or an unknown pattern |
| `LcaEngine.MultiplierRanking` | backend/src/services/lca-engine.js:75-79 | the multipliers are ordered CITY > MIXED > HIGHWAY, and any other (well-formed) pattern string weighs like MIXED |
| `LcaEngine.OtherPatternIsMixed` | backend/src/services/lca-engine.js:75-79 | an unknown (well-formed) pattern string gives the MIXED result, apart from the pattern echoed back |
| `LcaEngine.EmissionDebt` | backend/src/services/lca-engine.js:142-160 | the debt is positive exactly when the EV's manufacturing plus disposal exceeds the ICE's, and 0 exactly when they are equal |
| `LcaEngine.BreakevenDailyKm` | backend/src/services/lca-engine.js:164 | `daily_km \|\| 40`: never 0, and the EV result's daily distance when that is non-zero |
| `LcaEngine.CalculateBreakeven` | backend/src/services/lca-engine.js:141-177 | never breaks even exactly when the EV per-km figure is at least the ICE one. Otherwise it is the break-even on the rounded debt and saving, and the saving is reported exactly |
| `LcaEngine.BreakevenPoint` | backend/src/services/lca-engine.js:159-176 | km, years (1 decimal) and months are the roundings of debt/saving and its duration; a non-positive debt gives km ≤ 0 and a non-negative one km ≥ 0 |
| `LcaEngine.BreakevenIsCrossing` | backend/src/services/lca-engine.js:159-170 | at the unrounded break-even distance the two cumulative lines meet, and the reported km is its rounding |
| `LcaEngine.SavingsExact` | backend/src/services/lca-engine.js:161-175 | the difference of two 3-decimal rates survives the 3-decimal rounding unchanged |
| `LcaEngine.FuelCost` | backend/src/services/lca-engine.js:226-247 | km/eff × price for petrol, diesel and CNG; × 1.15 for electricity; 0 for an unrecognised type |
| `LcaEngine.HybridFuelCost` | backend/src/services/lca-engine.js:243-245 | with non-negative distance and prices the hybrid's fuel bill is non-negative |
| `LcaEngine.HybridCostIsBlend` | backend/src/services/lca-engine.js:243-245 | a hybrid's fuel bill is the petrol bill over 65 % of the distance plus the electric bill over 35 % at 1.3 × the efficiency, with a 0 electricity price read as 8 |
| `LcaEngine.MaintenancePerYear` | backend/src/services/lca-engine.js:251 | 5000 a year for electric vehicles, 12000 for all others |
| `LcaEngine.AssembleTco` | backend/src/services/lca-engine.js:253-260 | each cost rounds its own value; the total rounds the unrounded sum, within 2 of the parts' sum; the cost per km has 2 decimals and is absent for zero distance |
| `LcaEngine.CalculateTco` | backend/src/services/lca-engine.js:225-261 | purchase is the rounded lakh × 100000 (null reads 0); insurance the rounded 3 % a year of it over the years; maintenance the rounded yearly figure by fuel over the years; fuel the rounded bill over `daily × 365 × years` km; the total within 2 of the four parts; no cost per km exactly for a zero distance |
| `LcaEngine.ElectricityPriceFallback` | backend/src/services/lca-engine.js:240-244 | a hybrid reads a 0 electricity price as 8; an electric vehicle's fuel cost becomes 0 |
| `LcaEngine.UnknownFuelCostsNothingToRun` | backend/src/services/lca-engine.js:227-251 | an unrecognised fuel type has no fuel cost and the 12000/yr maintenance |
| `LcaEngine.TcoGrowsWithYears` | backend/src/services/lca-engine.js:225-260 | with non-negative prices, a longer ownership period never lowers the total cost |
| `LcaEngine.FuelCostGrows` | backend/src/services/lca-engine.js:229-247 | with non-negative prices, a longer distance never lowers the fuel bill |
| `LcaEngine.Triggered` | backend/src/services/lca-engine.js:273-318 | only the WLTP rule can fire for a vehicle that is neither electric nor hybrid, and every rule but WLTP and no-recycling needs an electric vehicle |
| `LcaEngine.Audit` | backend/src/services/lca-engine.js:269-328 | at most one flag per rule |
| `LcaEngine.AuditFlagsExactlyTheTriggered` | backend/src/services/lca-engine.js:269-328 | a kind is flagged exactly when it is among the rules and its trigger holds; each flag carries its rule's severity |
| `LcaEngine.AuditKeepsRuleOrder` | backend/src/services/lca-engine.js:269-328 | rules in increasing order give flags in increasing order |
| `LcaEngine.AuditOrderCoversEveryKind` | backend/src/services/lca-engine.js:272-326 | the audit applies all five kinds, in a fixed order |
| `LcaEngine.DetectGreenwashFlags` | backend/src/services/lca-engine.js:269-329 | the five sequential `if`s push exactly the reference audit over the five rules, for every fuel type |
| `LcaEngine.AuditProperties` | backend/src/services/lca-engine.js:269-328 | the flags are exactly the triggered rules, in rule order, with their severities (HIGH, MEDIUM, LOW, MEDIUM, LOW). The list is empty exactly when no rule fires |
| `LcaEngine.RulesAreIndependentOfManufacturing` | backend/src/services/lca-engine.js:283-326 | only the zero-emission rule reads the manufacturing figure |
| `LcaEngine.CombustionOnlyWltpRule` | backend/src/services/lca-engine.js:272-326 | a vehicle that is neither electric nor hybrid can only get the WLTP flag |
| `LcaTimeline.EffectiveGrid` | backend/src/services/lca-engine.js:204-208 | `max(grid × (1 − rate × m/12), 0.05)`: never below the floor, and the floor or the decayed value |
| `LcaTimeline.MonthlyEmission` | backend/src/services/lca-engine.js:207-209 | a month of driving adds positive carbon when the daily distance is positive |
| `LcaTimeline.Cumulative` | backend/src/services/lca-engine.js:193-209 | for a non-negative daily distance the running total is at least the manufacturing debt, and above it after a month of positive driving |
| `LcaTimeline.Point` | backend/src/services/lca-engine.js:196-201 | the point records its month, the rounded running total, the year as month / 12 at 1 decimal, and a year/month label that adds up to the month |
| `LcaTimeline.Timeline` | backend/src/services/lca-engine.js:195-201 | `months + 1` entries (none for negative months), entry `i` for month `i` |
| `LcaTimeline.GenerateMonthlyTimeline` | backend/src/services/lca-engine.js:188-218 | the loop fails exactly for an unrecognised fuel with at least one month; otherwise it returns the reference timeline |
| `LcaTimeline.TimelineAt` | backend/src/services/lca-engine.js:193-209 | entry `i` holds the running total at the start of month `i` |
| `LcaTimeline.TimelineStartsAtManufacturing` | backend/src/services/lca-engine.js:190-199 | entry 0 is the rounded manufacturing debt |
| `LcaTimeline.CumulativeGrows` | backend/src/services/lca-engine.js:207-209 | for a non-negative daily distance, the running total never decreases from one month to a later one |
| `LcaTimeline.TimelineNonDecreasing` | backend/src/services/lca-engine.js:195-215 | for a non-negative daily distance, the recorded totals are non-decreasing along the timeline |
| `LcaTimeline.MonthlyEmissionReadsRate` | backend/src/services/lca-engine.js:207-209 | a month's carbon reads only fuel type, efficiency and battery |
| `LcaTimeline.CumulativeIgnoresDisposal` | backend/src/services/lca-engine.js:190-209 | the running totals do not depend on the disposal column |
| `LcaTimeline.TimelineIgnoresDisposal` | backend/src/services/lca-engine.js:211-215 | the whole recorded timeline is the same whatever the disposal figure |
| `LcaTimeline.CombustionIgnoresGrid` | backend/src/services/lca-engine.js:203-209 | for petrol, diesel and CNG the grid and its improvement rate play no part |
| `LcaTimeline.CombustionMonthIgnoresGrid` | backend/src/services/lca-engine.js:203-209 | a single month of a petrol, diesel or CNG vehicle adds the same carbon whatever the grid and its improvement rate |
| `LcaTimeline.StaticGridMonths` | backend/src/services/lca-engine.js:203-209 | with no grid improvement every month adds the same carbon |
| `LcaTimeline.IntendedTimeline` | backend/src/services/lca-engine.js:211-214 | the corrected timeline has the same length as `Timeline` |
| `LcaTimeline.IntendedTimelineEndsWithDisposal` | backend/src/services/lca-engine.js:211-214 | the corrected timeline agrees with the recorded one on every point but the last, whose total includes the disposal figure |
| `LcaTimeline.DisposalMissingFromLastPoint` | backend/src/services/lca-engine.js:211-215 | a petrol car with 1000 kg of disposal over 0 months: recorded 5000, intended 6000 |
| `Ranking.SortByTotal` | backend/src/routes/calculate.js:240 | the sort keeps the number of results |
| `Ranking.SortIsSorted` | backend/src/routes/calculate.js:240 | the sorted results are ascending by `total_kg` |
| `Ranking.SortIsPermutation` | backend/src/routes/calculate.js:240 | sorting neither adds nor loses a result |
| `Ranking.SortIsStable` | backend/src/routes/calculate.js:240 | results with equal totals keep their input order |
| `Ranking.SortKeepsSum` | backend/src/routes/calculate.js:285-287 | sorting does not change the sum of the totals |
| `Recommend.ScanAppends` | backend/src/routes/calculate.js:248-275 | a pass only appends, never past three picks, and only candidates from its start on |
| `Recommend.Scan` | backend/src/routes/calculate.js:248-275 | a pass yields positions of the list only |
| `Recommend.FirstPass` | backend/src/routes/calculate.js:247-255 | pass 1 picks at most three positions of the list |
| `Recommend.SecondPass` | backend/src/routes/calculate.js:256-266 | pass 2 picks at most three positions and keeps every pick of pass 1 |
| `Recommend.Selection` | backend/src/routes/calculate.js:267-275 | the final picks are positions of the list |
| `Recommend.UsedSetsGrow` | backend/src/routes/calculate.js:250-253 | picking a candidate adds exactly its make and fuel to the used sets and the item to `diverse` |
| `Recommend.SelectDiverse` | backend/src/routes/calculate.js:243-275 | the three passes compute the reference selection, and `diverse` holds the picked candidates |
| `Recommend.PickUniqueMakeAndFuel` | backend/src/routes/calculate.js:247-255 | pass 1 computes the reference first pass and the used makes and fuels |
| `Recommend.PickUniqueMake` | backend/src/routes/calculate.js:256-266 | pass 2 computes the reference second pass and the used makes |
| `Recommend.PickRemaining` | backend/src/routes/calculate.js:267-275 | pass 3 computes the reference selection |
| `Recommend.AcceptedIsFresh` | backend/src/routes/calculate.js:250-271 | no pass takes a candidate already picked |
| `Recommend.SelectionIsDistinct` | backend/src/routes/calculate.js:243-275 | no candidate is recommended twice; the first recommendation is the first (lowest-total) candidate |
| `Recommend.PassesDiversify` | backend/src/routes/calculate.js:247-275 | pass 1 picks pairwise different makes and fuels; after pass 2 the makes are still pairwise different; each pass's picks are a prefix of the next |
| `Recommend.PassesAreGreedy` | backend/src/routes/calculate.js:247-266 | a pass ending below three skipped only candidates that share a make (or, in pass 1, a fuel) with a pick |
| `Recommend.FillCovers` | backend/src/routes/calculate.js:268-275 | a fill pass ending below three has taken every remaining candidate |
| `Recommend.SelectionSize` | backend/src/routes/calculate.js:243-275 | the selection has `min(3, n)` entries |
| `Recommend.Recommendations` | backend/src/routes/calculate.js:289-292 | one recommendation per pick |
| `Recommend.RecommendationsAreRanked` | backend/src/routes/calculate.js:278-292 | recommendation `k` is pick `k` with rank `k + 1` and a non-empty label, and no two recommendations share a label |
| `Recommend.Label` | backend/src/routes/calculate.js:291 | rank positions 0, 1 and 2 have a label, and no later position does |
| `Recommend.AverageCarbon` | backend/src/routes/calculate.js:285-287 | 0 for no results; otherwise the mean total rounded, within half a unit of the exact mean |
| `Recommend.AverageIsBetween` | backend/src/routes/calculate.js:285-287 | when every total lies between two bounds, so does the rounded average |
| `Recommend.AverageIgnoresOrder` | backend/src/routes/calculate.js:240-287 | averaging the sorted list gives the average of the unsorted one |
| `Compare.CheckCompareRequest` | backend/src/routes/calculate.js:67-73 | accepted exactly for an array of 2 to 4 ids (echoed back); "at most four" exactly for a longer array |
| `Compare.ElectricMembers` | backend/src/routes/calculate.js:117 | the electric filter keeps exactly the electric results |
| `Compare.CombustionMembers` | backend/src/routes/calculate.js:118 | the combustion filter keeps exactly the petrol, diesel and CNG results |
| `Compare.ElectricResults` | backend/src/routes/calculate.js:117 | the electric filter never lengthens the list |
| `Compare.ElectricResultsAppend` | backend/src/routes/calculate.js:117 | a concatenation is filtered part by part, so the filter keeps the order of the results |
| `Compare.ElectricResultsOfOne` | backend/src/routes/calculate.js:117 | a single result is kept, once, exactly when it is electric |
| `Compare.CombustionResults` | backend/src/routes/calculate.js:118 | the combustion filter never lengthens the list |
| `Compare.CombustionResultsAppend` | backend/src/routes/calculate.js:118 | a concatenation is filtered part by part, so the filter keeps the order of the results |
| `Compare.CombustionResultsOfOne` | backend/src/routes/calculate.js:118 | a single result is kept, once, exactly when it is petrol, diesel or CNG |
| `Compare.Entry` | backend/src/routes/calculate.js:126-134 | the record keeps the two results, and says "never breaks even" exactly when the EV per-km figure is at least the ICE one |
| `Compare.AnalyseAgainstEach` | backend/src/routes/calculate.js:122-135 | the inner loop pushes one record per combustion result, in order |
| `Compare.Row` | backend/src/routes/calculate.js:122-135 | the inner loop makes one record per combustion result |
| `Compare.BreakevenAnalysis` | backend/src/routes/calculate.js:115-136 | the nested loops over the sorted and filtered results push the records of `Pairs`, electric-major |
| `Compare.RowAt` | backend/src/routes/calculate.js:122-135 | record `b` of the inner loop is made from combustion result `b` |
| `Compare.PairsSize` | backend/src/routes/calculate.js:120-136 | one record per pair: `|evs| × |ices|` records |
| `Compare.PairsAt` | backend/src/routes/calculate.js:120-136 | record `a × |ices| + b` pairs electric result `a` with combustion result `b` |
| `Compare.PairsFromLists` | backend/src/routes/calculate.js:120-136 | every record comes from one element of each list |
| `Compare.OnlyEvAgainstIce` | backend/src/routes/calculate.js:117-136 | every record pairs an electric result with a petrol, diesel or CNG result; hybrids never appear |
| `Compare.PairIsInList` | backend/src/routes/calculate.js:117-136 | every electric result of the list meets every combustion result |
| `Compare.EveryPairIsAnalysed` | backend/src/routes/calculate.js:115-136 | after sorting, every electric result scored still meets every combustion result scored |
| `Grid.GridColor` | backend/src/routes/grid.js:34-40 | the colour is one of the five of the palette; green exactly up to 0.3 inclusive, red exactly above 0.85 |
| `Grid.GridCategory` | backend/src/routes/grid.js:42-48 | the category is one of the five names; 'Very Clean' exactly up to 0.3 inclusive, 'Very Carbon Heavy' exactly above 0.85 |
| `Grid.Band` | backend/src/routes/grid.js:34-48 | the band index, counted from the four inclusive bounds, is one of five |
| `Grid.ColorOfBand` | backend/src/routes/grid.js:34-40 | the colour is the palette entry of the band (#10b981 … #ef4444) |
| `Grid.CategoryOfBand` | backend/src/routes/grid.js:42-48 | the category is the band's name ('Very Clean' … 'Very Carbon Heavy') |
| `Grid.BandMonotone` | backend/src/routes/grid.js:42-48 | a higher intensity never gets a cleaner band |
| `Grid.BoundsAreInclusive` | backend/src/routes/grid.js:42-48 | each bound (0.3, 0.5, 0.7, 0.85) belongs to the band it closes, and anything just above it to the next |
| `Grid.ColorMatchesCategory` | backend/src/routes/grid.js:34-48 | two intensities share a colour exactly when they share a band, and a category exactly when they share a band |

## Left out

**Infrastructure**
- **HTTP handling.** Request parsing, responses and status codes are not modelled. `Compare.CheckCompareRequest` returns which of the two 400 errors applies.
- **Database and deployment.** The SQLite access (`db.js`, `seed-db.js`) and the server start-up are not modelled. The re-queries of the two vehicles inside the break-even loop are not modelled either.
  - The model's inputs stand in for what those queries return: vehicle rows, the grid intensity and fuel prices, and for the comparison the results already scored and filtered of unknown ids.
- **Parsing.** `parseFloat`/`parseInt` of the request fields is not modelled.
- **Default values.**
  - The engine's default parameters (`gridIntensity = 0.71`, `months = 120`, `gridImprovementRate = 0`, `usagePattern = 'MIXED'`, `gridIntensity = 0.75` for the audit) are ordinary parameters here, so a caller of the model always passes a value. The compare route's timeline call (`backend/src/routes/calculate.js:92-94`) leaves out `gridImprovementRate`, so the source uses the default 0; a model caller standing for it passes 0.0.
  - The route-side defaults are not modelled: a missing state row reads 0.71, and missing fuel prices read 100 and 8.
- **The frontend** is not modelled.

**Text**
- **Human-readable strings** are not modelled:
  - the break-even `reason`;
  - the greenwash `claim` / `reality` / `recommendation`;
  - the route's `explanation` from `generateExplanation`;
  - the `"<make> <model>"` names in a break-even record.

  A flag is its kind and severity. A break-even record keeps the two scored results it was built from. The timeline label `"<y>y <m>m"` is kept as its two numbers.

**Numbers**
- **IEEE-754 behaviour**, including NaN, Infinity and the floating-point rounding of sums and products, is not modelled. Every formula that divides by the MIDC efficiency requires it to be positive. The sort comparator is not modelled for NaN totals.
- `LcaEngine.UsageMultiplier`: a pattern string that names a member of `Object.prototype` (such as `toString`) is read as an ordinary unknown string (1.0). The source would multiply by a function and get NaN.
- `LcaEngine.AssembleTco`: for a zero distance the source divides by 0 and reports NaN or Infinity as the cost per km; the model reports no value.
- `LcaEngine.CalculateBreakeven`: the three parameters the source accepts but never reads (the two vehicle rows and the grid intensity) are dropped.

**Identity**
- `Recommend.SelectDiverse`: object identity is modelled by position in the sorted list. Two equal records at different positions are different candidates, as they are different objects in the route.

## Findings

| source | as written | input that shows it | evidently intended | confidence | as-written member | corrected member |
|---|---|---|---|---|---|---|
| backend/src/services/lca-engine.js:211-215 | The disposal figure is added to `cumulative` after the last point has been pushed, so it appears in no recorded point. The comment there promises it at the last month. | A petrol car: 20 km/L, 5000 kg manufacturing, 1000 kg disposal, `months = 0`. The timeline is one point with 5000 kg. | The last point includes the disposal figure: 6000 kg here, the whole lifecycle. | not executed | `LcaTimeline.TimelineIgnoresDisposal`, `LcaTimeline.DisposalMissingFromLastPoint` | `LcaTimeline.IntendedTimeline`, `LcaTimeline.IntendedTimelineEndsWithDisposal` |
