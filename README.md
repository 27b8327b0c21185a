# Buildout rule engine

This project models the rule engine of a parcel buildout analysis. The analysis estimates how many dwelling units each land parcel can hold under two regimes: current zoning (minimum lot sizes) and nitrate dilution (septic density). The model follows the engine's own order of passes:

1. **Zone classification** (`zoning.dfy`, module `ZoneClassifier`). A municipality family is chosen from the zoning dataset's name. For Carneys Point and Oldmans, every zone row whose `Zone_ID` is in the family's code table gets that table's minimum lot (`MINLOT`) and the density derived from it (`RESDENSITY`). For Hopewell, the existing `MINLOT` is kept and only `RESDENSITY` is derived.
2. **Per-fragment formulas** (`formulas.dfy`, module `BuildoutFormulas`): current-zoning buildout, nitrate-dilution buildout and the split flag. Areas and densities are exact reals and `math.floor` is `.Floor`.
3. **Fragment passes** (`fragments.dfy`, module `FragmentPasses`):
   - labelling each fragment `SEPTIC` or `SEWER` from the sewer join;
   - the buildout pass;
   - the multi-system resolver, which labels `SEWER/SEPTIC` every fragment of a parcel (`PAMS_PIN`) whose fragments disagree.
4. **Aggregation** (`aggregation.dfy`, module `Aggregation`):
   - the sums of the dissolve on (`PAMS_PIN`, `Zone_ID`, `SYSTEM`);
   - the pass that copies the sums back and sets `CANSPLIT`;
   - the pass that raises a zero buildout to one;
   - `RunRuleEngine`, which runs the passes one after another.
5. **`stripDash`** of the point generation tool (`strip_dash.dfy`, module `DashStripping`).

The passes that walk a table with an update cursor are methods over an `array` of records, updated in place. Each such method is proved equal, row by row, to a pure function of the old table. The properties are then proved about those functions.

Three behaviours of the code are worth stating outright, because the model follows them exactly:

- A dataset name that matches no family leaves the zoning table untouched: the `if`/`elif` chain at buildout_analysis.py:23-59 has no `else`. Only the Hopewell branch (buildout_analysis.py:39-47) derives densities from the existing `MINLOT`.
- `canSplit(1, 1)` is 1, because 1 + 1 > 1 (buildout_analysis.py:110-114). The engine still sets the flag only for parcels that can really be split. It takes `CANSPLIT` at buildout_analysis.py:278, from the raw sums, before zeros are raised to one at 289-296. Those raw sums are never 1. `FlagBeforePromotion` proves that, for this order, the flag is set exactly when a promoted value exceeds 1. `FlagAfterPromotionIsConstant` shows that taking the flag after promotion would set it for every parcel.
- `nitrate_BO` has no guard against a zero septic density (buildout_analysis.py:88). The model therefore requires a positive density for a septic fragment and adds no fallback.

## Model

| member | source | states |
|---|---|---|
| `ZoneClassifier.SelectFamily` | buildout_analysis.py:23-49 | the family tests run in order, each an `in` substring test (the predicate `Contains`): Carney exactly when `CARNEY` or `CP` occurs; Hopewell exactly when neither occurs and `HOPEWELL` does; `OLDMAN` only if no earlier test holds; no family exactly when no keyword occurs |
| `ZoneClassifier.ContainsAt` | buildout_analysis.py:23 | `Contains`, the model of Python's `in` on strings, holds exactly when the pattern is the slice of the text starting at some index |
| `ZoneClassifier.CarneyCodes` | buildout_analysis.py:9-10 | the Carneys Point table has fourteen codes, no negative lot size, and `OS` is its only preserved land (lot size 0) |
| `ZoneClassifier.OldmansCodes` | buildout_analysis.py:12-13 | the Oldmans table has nine codes, no negative lot size, and `P` is its only preserved land (lot size 0) |
| `ZoneClassifier.Lookup` | buildout_analysis.py:25-26 | a code is found exactly when some table entry carries it, and the size returned is that entry's size |
| `ZoneClassifier.Density` | buildout_analysis.py:30-35 | density is 0 exactly when the lot size is 0; otherwise density times lot size is 1 |
| `ZoneClassifier.ApplyCodeTable` | buildout_analysis.py:24-36 | a row whose code is in the table takes that entry's lot size and a consistent density; a row with another code is unchanged; the zone code is never changed |
| `ZoneClassifier.ClassifyRow` | buildout_analysis.py:23-59 | Hopewell keeps the lot size and makes the density consistent; an unrecognised family changes nothing |
| `ZoneClassifier.ClassifyZones` | buildout_analysis.py:21-59 | every row of the zoning table ends as the selected family's classification of its old value |
| `ZoneClassifier.ApplyCodeTableToRows` | buildout_analysis.py:24-37 | the nested row-by-table loop leaves each row as the code-table classification of its old value |
| `ZoneClassifier.DeriveDensities` | buildout_analysis.py:40-47 | the Hopewell loop sets each row's density from its own lot size and changes nothing else |
| `ZoneClassifier.TablesHaveDistinctCodes` | buildout_analysis.py:9-13 | both code tables list each zone code once |
| `ZoneClassifier.LookupDistinct` | buildout_analysis.py:25-27 | in a table with distinct codes, looking up an entry's code yields that entry's size |
| `ZoneClassifier.ClassifiedRowConsistent` | buildout_analysis.py:29-35 | after classification (every Hopewell row, every Carney or Oldmans row with a known code), density is 0 exactly when the lot size is 0, and is its reciprocal otherwise |
| `ZoneClassifier.ClassifyIdempotent` | buildout_analysis.py:21-59 | classifying an already classified row changes nothing |
| `ZoneClassifier.CarneyExamples` | buildout_analysis.py:9-10 | `OS` becomes preserved land with lot size and density 0; `RR-2` takes 30000 square feet |
| `BuildoutFormulas.CurrentZoningBuildout` | buildout_analysis.py:99-107 | 0 for preserved land; for a positive minimum lot, nonzero exactly when the area exceeds twice the lot, and then the number of whole lots that fit in the area |
| `BuildoutFormulas.NitrateBuildout` | buildout_analysis.py:74-96 | a sewered fragment gets its zoning value unchanged; a septic fragment gets a nonzero value exactly when all three split conditions hold, and then at least 2, namely the number of whole septic lots (density × 43560 sq ft) that fit in the area |
| `BuildoutFormulas.CanSplit` | buildout_analysis.py:110-114 | the flag is 0 or 1, and 1 exactly when the two values sum to more than 1 |
| `BuildoutFormulas.FloorQuotientFacts` | buildout_analysis.py:88 | an area over twice a positive lot holds at least 2 whole lots, and the floor of the quotient counts the lots that fit |
| `BuildoutFormulas.CurrentZoningZeroOrAtLeastTwo` | buildout_analysis.py:99-107 | with a non-negative minimum lot, the zoning value is 0 or at least 2 |
| `BuildoutFormulas.NitrateZeroOrAtLeastTwo` | buildout_analysis.py:74-96 | the nitrate value computed from the fragment's own zoning value is 0 or at least 2 |
| `BuildoutFormulas.NitrateSplitImpliesZoningSplit` | buildout_analysis.py:82 | a nonzero nitrate value comes with a zoning value of at least 2 |
| `BuildoutFormulas.CanSplitExamples` | buildout_analysis.py:110-114 | `canSplit(1,1)` is 1, `canSplit(0,0)` is 0, `canSplit(1,0)` is 0, `canSplit(2,0)` is 1 |
| `FragmentPasses.SystemLabel` | buildout_analysis.py:200-203 | the label is `SEPTIC` exactly when the sewer join id is -1, and `SEWER` otherwise |
| `FragmentPasses.OnlySepticIsSeptic` | buildout_analysis.py:227-230 | the exact-label test (the predicate `IsSeptic`) reads a freshly labelled fragment as septic exactly when it lies outside every sewer area; `SEWER` and `SEWER/SEPTIC` never read as septic |
| `FragmentPasses.LabelSystems` | buildout_analysis.py:198-205 | every fragment gets the label of its sewer join id and nothing else changes |
| `FragmentPasses.WithBuildout` | buildout_analysis.py:232-239 | a fragment with its two values filled in: every other field is kept; preserved land gets 0 and 0; for a positive lot the zoning value is nonzero exactly when the area exceeds twice the lot; a sewered fragment's nitrate value equals its zoning value; a septic fragment's is nonzero exactly when all three split conditions hold |
| `FragmentPasses.ComputeBuildouts` | buildout_analysis.py:224-242 | every fragment gets its zoning value and the nitrate value for its label, and nothing else changes |
| `FragmentPasses.BuildoutValuesZeroOrAtLeastTwo` | buildout_analysis.py:235-239 | after the buildout pass, both values of a fragment are 0 or at least 2, and a nonzero nitrate value implies a nonzero zoning value |
| `FragmentPasses.LabelsOfMembers` | buildout_analysis.py:253-257 | `LabelsOf`, the model of `sysSet`, holds a label exactly when some fragment of that parcel carries it |
| `FragmentPasses.Resolved` | buildout_analysis.py:248-262 | the table after resolution has the same length, and each fragment is relabelled exactly when its parcel's label set has more than one element |
| `FragmentPasses.CollectLabels` | buildout_analysis.py:253-257 | the grouping pass yields, for every pin, the set of labels of its fragments |
| `FragmentPasses.ResolveMultiSystem` | buildout_analysis.py:248-262 | the table after the pass is the resolution of the old table |
| `FragmentPasses.MultiSystemIffDisagree` | buildout_analysis.py:258 | a parcel's label set has more than one element exactly when two of its fragments carry different labels |
| `FragmentPasses.ResolvedUniform` | buildout_analysis.py:244-259 | after resolution, all fragments sharing a pin carry the same label; a parcel with disagreeing fragments is `SEWER/SEPTIC` throughout; any other parcel is unchanged |
| `FragmentPasses.ResolvedKeepsFields` | buildout_analysis.py:259 | resolution changes only `SYSTEM`, and only to `SEWER/SEPTIC` |
| `FragmentPasses.ResolveIdempotent` | buildout_analysis.py:248-262 | a second resolution pass changes nothing |
| `FragmentPasses.ResolverExamples` | buildout_analysis.py:258-259 | a sewer and a septic fragment of one parcel both become `SEWER/SEPTIC`; two septic fragments stay as they are |
| `Aggregation.Dissolve` | buildout_analysis.py:265-266 | the dissolved table has no key twice, has no more rows than there are fragments, and is empty only for an empty fragment table; `DissolveCorrect` states its keys and sums |
| `Aggregation.DissolveCorrect` | buildout_analysis.py:265-266 | the dissolve yields one row per distinct (pin, zone, system) of the fragments, with no key twice, and the sums under each key are the sums over its fragments |
| `Aggregation.DissolvedRowSums` | buildout_analysis.py:265-266 | each dissolved row's `SUM_CZ_BLDOUT` and `SUM_NO3_BLDOUT` are the sums over the fragments with its key |
| `Aggregation.DissolvePreservesTotals` | buildout_analysis.py:265-266 | the dissolved table's grand totals equal the fragment table's |
| `Aggregation.SumsZeroOrAtLeastTwo` | buildout_analysis.py:265-266 | if every fragment value is 0 or at least 2, so is every per-key sum |
| `Aggregation.WithSplitFlag` | buildout_analysis.py:276-278 | a row after the copy-back: key and sums kept, both sums copied into the buildout fields, and `CANSPLIT` 0 or 1, and 1 exactly when the two sums add up to more than 1 |
| `Aggregation.CopySumsAndFlagSplit` | buildout_analysis.py:274-280 | every row gets its sums as buildout values and `CANSPLIT` from those unpromoted sums |
| `Aggregation.PromoteValue` | buildout_analysis.py:291-294 | 0 becomes exactly 1, a non-negative value becomes at least 1, and a nonzero value is unchanged |
| `Aggregation.Promote` | buildout_analysis.py:291-294 | a row after promotion: only the two buildout values change; each that was 0 becomes 1, each that was nonzero is kept, so each non-negative value ends at least 1 |
| `Aggregation.PromoteZeros` | buildout_analysis.py:289-296 | every row has each zero buildout value replaced by 1 and nothing else changed |
| `Aggregation.PromoteIdempotent` | buildout_analysis.py:289-296 | promoting twice is promoting once; a row without zeros is unchanged |
| `Aggregation.FlagAfterPromotionIsConstant` | buildout_analysis.py:111 | a flag taken on promoted values would be 1 for every parcel |
| `Aggregation.FlagBeforePromotion` | buildout_analysis.py:276-294 | on sums whose values are each 0 or at least 2, the flag taken before promotion is 1 exactly when a promoted value exceeds 1, that is, when some sum is nonzero |
| `Aggregation.LabelledWithBuildout` | buildout_analysis.py:198-242 | labelling and the buildout pass keep the number of fragments |
| `Aggregation.Finalized` | buildout_analysis.py:265-296 | the final table has one row per dissolved row |
| `Aggregation.FinalizedRows` | buildout_analysis.py:265-296 | final rows have distinct keys (those of the fragments), values equal to the promoted sums for their key, both values at least 1, and `CANSPLIT` 1 exactly when a value exceeds 1 |
| `Aggregation.PreparedValues` | buildout_analysis.py:198-262 | after labelling, the buildout pass and resolution, every fragment value is 0 or at least 2 |
| `Aggregation.PrepareFragments` | buildout_analysis.py:198-262 | the three fragment passes in order leave the resolved, computed table |
| `Aggregation.RunRuleEngine` | buildout_analysis.py:198-296 | the whole engine: one final row per (pin, zone, system), values equal to the promoted fragment sums, both at least 1, and `CANSPLIT` 1 exactly when one exceeds 1 |
| `Aggregation.DissolveSameKeyPair` | buildout_analysis.py:265-266 | two fragments with one key dissolve into one row carrying both sums |
| `Aggregation.ExampleBuildout` | buildout_analysis.py:224-242 | the sewered 90000 sq ft fragment in a 40000 sq ft zone gets 2 and 2; the septic 5000 sq ft fragment gets 0 and 0 |
| `Aggregation.TwoFragmentExample` | buildout_analysis.py:248-296 | those two fragments of one parcel end as one `SEWER/SEPTIC` row with both values 2 and `CANSPLIT` 1 |
| `DashStripping.Split` | buildout_point_generation.py:26 | splitting on `-` yields one more piece than there are dashes |
| `DashStripping.StripDash` | buildout_point_generation.py:23-33 | the result is the input with every dash removed; it holds no dash; it is shorter by exactly the number of dashes |
| `DashStripping.ConcatSplit` | buildout_point_generation.py:26-29 | concatenating the pieces of the split is the input without its dashes |
| `DashStripping.SplitJoin` | buildout_point_generation.py:26 | joining the pieces with `-` gives back the input, and no piece holds a dash |
| `DashStripping.NoDashUnchanged` | buildout_point_generation.py:31-33 | an input without dashes is returned unchanged |
| `DashStripping.WithoutDashesFacts` | buildout_point_generation.py:24-29 | the result holds no dash, and its length is the input length minus the number of dashes, consecutive dashes included |
| `DashStripping.WithoutDashesAppend` | buildout_point_generation.py:26-29 | removal works piecewise on concatenations, so the kept characters stay in order |
| `DashStripping.StripIdempotent` | buildout_point_generation.py:23-33 | stripping twice is stripping once |

## Left out

- All geometry and table operations are left out: clipping, identity overlays, buffers, merge, erase, select and delete features, the physical dissolve, copy and rename. The engine receives their results as record sequences.
- The attribute filters of those steps are not modelled as preconditions: `Shape_Area >= MINLOT` (buildout_analysis.py:189) and the deletion of fragments outside a nitrate watershed (213-214). Only the two facts the proofs need are required: non-negative minimum lots, and a positive septic density outside sewer areas.
- Field management is left out: `uglyFieldManagement`, the `AddField`/`DeleteField` calls and the field-existence checks at buildout_analysis.py:15-19. The fields that the copy-back pass fills start at 0 in the model.
- Parameter parsing, workspace paths, progress messages and temporary-file cleanup are left out.
- The thinness ratio (buildout_analysis.py:300) is left out. It is floating point with `math.pi`, and its expression string is malformed.
- Empty tables are not an error in the model. Each `for row in cursor: ... del row, cursor` loop (buildout_analysis.py:37, 47, 59, 205, 242, 262, 280, 296) raises `NameError` on a table with no rows, because `row` is never bound. The model's methods return normally on an empty array instead: `ApplyCodeTableToRows` and `DeriveDensities`, and so `ClassifyZones` under a recognised family, and also `LabelSystems`, `ComputeBuildouts`, `CollectLabels`, `ResolveMultiSystem`, `CopySumsAndFlagSplit`, `PromoteZeros` and `RunRuleEngine`. Under a name that matches no family, the source runs no loop and returns normally too, as `ClassifyZones` does.
- Null field values are not modelled; every field holds a number or a string. A null `MINLOT` in the Hopewell branch (buildout_analysis.py:41-43) makes `None ** (-1)` raise `TypeError`. A null `PAMS_PIN` makes the selection at 252 match no row, so `del subRow` at 257 raises `NameError`.
- Field widths are not modelled. `CZ_BLDOUT` and `NO3_BLDOUT` are 32-bit `LONG` fields (buildout_analysis.py:220-221, 271-272) and `CANSPLIT` is a 16-bit `SHORT` (270). The model keeps every buildout value and sum as an unbounded `int`, so overflow of those fields is not captured.
- Floating point is not modelled. `size ** (-1)` and `math.floor` are exact real arithmetic here, so IEEE rounding is not captured.
- `ResolveMultiSystem` models the stated intent of the resolver, a uniform label per parcel, as group-then-rewrite. It deliberately does not model the cursor semantics at buildout_analysis.py:261. That line writes back a row read before `CalculateField`, which may restore that row's old label. The row-by-row skip of rows already labelled `SEWER/SEPTIC` (250) is not modelled separately; it does not change the group-then-rewrite result.
- `Aggregation.Dissolve`: the order of the dissolved rows (here, the order in which keys first occur) is the library's concern. Independence from the input order is not proved.
- `NitrateBuildout`: the source divides by zero (buildout_analysis.py:88) only for a septic fragment with density 0, `MINLOT` not 0 and an area over twice `MINLOT`, and so an area over 0. The requires `isSeptic ==> septicDensity > 0.0`, and `BuildoutReady` and `EngineInput` with it, excludes more than that fault. It also excludes zero-density septic fragments that the source maps to 0 at line 92 without dividing: preserved land (`MINLOT` 0), or an area of at most twice `MINLOT`. It also excludes negative densities, for which the source returns the negative `floor(area / (density * 43560))`. The model promises nothing for these inputs.
- Only the single post-erasure pass exists in the code. The pre/post-erasure variant with four buildout fields is not part of this model.
- Everything in buildout_point_generation.py other than `stripDash` is not part of this model: the fishnet, clipping, merging, the randomly jittered points and the projection.
