# Menu pricing and keyword tabulation, in Dafny

This project models the arithmetic core of a small set of restaurant
analysis scripts and proves what they promise.

**The menu pricing engine.** It has five steps:

1. An ingredient's unit price is cost divided by weight in kilograms, after the
   weight unit has been normalised.
2. A recipe's cost is the sum of unit price × quantity.
3. The suggested price is cost divided by the ideal food-cost share.
4. The gross margin is (price − cost) / price.
5. The price tier is the smallest threshold the price is at or below. Otherwise
   the price gets an "above" label built from the last threshold as listed.

The engine appears in four forms:

- free functions over `Ingredient` and `Recipe` values (`menu_pricing.py`);
- a mutable `MenuItem` whose fields `calculate_pricing` and `categorize_tier`
  fill in (`menu_pricing_real.py`, `real_menu_pricing.py`);
- a fixed tier ladder (`analyze_real_data.py`);
- a variant with override and fallback rules for cost, price and margin
  (`bp_menu_pricing.py`).

A batch step turns the tier labels into counts and percentages.

**The keyword tabulation** in the review and field-survey scripts:

- substring-membership classification of reviews and complaints into categories;
- filtering customers by age group;
- dictionary counters.

## Modelling choices

- **Modules.**
  - Errors that the scripts raise become a `Result` with a named error (`Wrappers`).
  - Python strings become `string`. `Text` holds `str.strip`, `str.lower`, `in` on
    strings, `str.split` and `str.join`.
  - Prices, ratios and margins are Dafny `real`. numpy's `mean`, `max` and `min`
    are functions over a non-empty sequence (`Stats`).
  - Python dictionaries keep insertion order, so a dictionary is a `Dict`: a key
    order `keys` plus a `map` (`Dicts`). Counting with `d.get(k, 0) + 1` is
    `Tally` (module `Tally`).
  - The shop's sixteen products are a constant table (`RealProducts`).
- **Mutable state.** `MenuItem` is a class. Its two methods change only the fields
  the source assigns, and their `ensures` say so.
- **Loops.**
  - The loops of the scripts are methods with loop invariants. Each is proved equal
    to a recursive specification function, and lemmas state the properties of that
    function.
  - Examples: `Recipe.cost` is `MenuPricing.RecipeCost` against `MenuPricing.CostOf`;
    `analyze_health_keywords` is `ReviewKeywords.AnalyzeHealthKeywords` against
    `ReviewKeywords.CountMentions`.
- **Inputs.**
  - File reading is replaced by already-parsed rows: CSV rows for `menu_pricing.py`
    and spreadsheet cells for `menu_pricing_real.py`.
  - Command-line arguments become parameters of the `main` models.

A price above every threshold is labelled with `tiers[-1]`, the last threshold as
given, not with the largest one, as a reader of the label might expect. The two
differ when the thresholds are not given in ascending order, because only the
search loop sorts them. The model follows the code.
`Tiers.AboveUsesLastListed` shows the difference: for thresholds `[9990, 3990]`,
a price of 12000 is labelled `>3,990원`.

`read_excel_data` in `menu_pricing_real.py` reads the sheet without a header, so
each row's cells are labelled 0, 1, 2, and so on. `row[-1]` is then a lookup of the
label -1, which raises `KeyError` for every row with a name, and the outer handler
returns an empty list. The model has both readings: `ByLabel` as written and
`ByPosition` (the last cell) as intended. Each result is proved for both; see
"## Findings".

## Model

| member | source | states |
|---|---|---|
| `Text.Strip` | menu_pricing.py:62 | the stripped string is no longer than the input |
| `Text.StripFacts` | menu_pricing.py:62 | `Strip(s)` is the slice of `s` left after removing leading and trailing whitespace; everything removed is whitespace and the result neither starts nor ends with whitespace |
| `Text.StripIdempotent` | menu_pricing.py:82 | stripping twice equals stripping once |
| `Text.StripUnpadded` | menu_pricing_real.py:77 | a string without leading or trailing whitespace is unchanged by strip |
| `Text.Lower` | menu_pricing.py:64 | lower-casing keeps the length and maps every character through `LowerChar` |
| `Text.LowerChar` | menu_pricing.py:64 | ASCII capitals move to lower case, the Kelvin sign becomes `k`, every other character is kept |
| `Text.LowerKeepsSpaces` | menu_pricing.py:64 | lower-casing neither creates nor removes whitespace |
| `Text.LowerIdempotent` | menu_pricing.py:64 | lower-casing is idempotent |
| `Text.StripLowerIdempotent` | menu_pricing.py:64 | normalising a unit tag twice equals normalising it once |
| `Text.LeadingSpacesFacts` | menu_pricing.py:62 | the leading-whitespace count covers only whitespace and stops at the first non-space |
| `Text.TrailingSpacesFacts` | menu_pricing.py:62 | the trailing-whitespace count covers only whitespace and stops at the last non-space |
| `Text.ContainsAt` | naver_review_health_food_analysis.py:122 | `sub in s` holds exactly when `sub` occurs at some position of `s` |
| `Text.FirstIndex` | delivery_ashley_menu_analysis.py:263 | the index found holds the separator and no earlier position does |
| `Text.Split` | delivery_ashley_menu_analysis.py:263 | `split(',')` yields at least one piece and no piece contains the separator |
| `Text.JoinSplit` | delivery_ashley_menu_analysis.py:263 | joining the pieces of `split(sep)` with `sep` gives back the original string |
| `Stats.Max` | menu_pricing_real.py:127 | the maximum is an element of the list and bounds every element from above |
| `Stats.Min` | menu_pricing_real.py:128 | the minimum is an element of the list and bounds every element from below |
| `Stats.SumBounds` | analyze_real_data.py:69 | a sum of values in [lo, hi] lies in [n·lo, n·hi] |
| `Stats.MeanBetween` | menu_pricing_real.py:126-128 | the mean lies between the minimum and the maximum |
| `Stats.MeanBounds` | analyze_real_data.py:72 | the mean of values in [lo, hi] lies in [lo, hi] |
| `Stats.ConstantStats` | analyze_real_data.py:72 | mean, max and min of a constant list are that constant |
| `Stats.SumPositive` | menu_pricing.py:49-55 | a non-empty sum of positive terms is positive |
| `RealProducts.ProductsWellFormed` | analyze_real_data.py:8-25 | the table has sixteen products with distinct names and cost ratios in [0.223, 0.618] |
| `Dicts.Empty` | menu_pricing_real.py:133 | `{}` is a well-formed dictionary with no keys |
| `Dicts.Put` | menu_pricing.py:74 | `d[k] = v` updates the map; a new key is appended to the key order and an existing key keeps its place |
| `Dicts.Increment` | delivery_ashley_menu_analysis.py:170-175 | `d[k] += 1` on an existing key adds one to that entry and keeps the key order |
| `Dicts.PutTwice` | menu_pricing.py:74 | a second assignment to the same key overrides the first |
| `Dicts.Items` | menu_pricing.py:51 | `d.items()` lists every key in insertion order with its value |
| `Dicts.SumOverAppend` | menu_pricing_real.py:133-135 | summing the counts over one more key adds that key's count |
| `Dicts.SumOverUpdate` | menu_pricing_real.py:135 | overwriting one key changes the sum by exactly the difference |
| `Dicts.TotalPut` | menu_pricing_real.py:135 | after `d[k] = v` the total changes from the old value of `k` to `v` |
| `Dicts.TotalIncrement` | menu_pricing_real.py:135 | `d[k] = d.get(k, 0) + 1` raises the total by one |
| `Tally.TallyValid` | menu_pricing_real.py:133-135 | the counting dictionary is well formed |
| `Tally.TallyKeys` | menu_pricing_real.py:133-135 | a label is a key of the counts exactly when it occurs in the input |
| `Tally.TallyCounts` | menu_pricing_real.py:133-135 | each key's count is the number of occurrences of that label in the input |
| `Tally.TallyTotal` | menu_pricing_real.py:133-139 | the counts sum to the number of items |
| `Tally.TallyOfConstant` | analyze_real_data.py:76-90 | a batch with one label has that label as its only key |
| `Tally.CountEach` | real_menu_pricing.py:117-119 | the counting loop yields `Tally(s)`: keys exactly the labels present, counts equal to multiplicities, total equal to the batch size |
| `Tally.Shares` | menu_pricing_real.py:137-139 | each tier's percentage is its count over the full batch size times 100, in key order |
| `Tally.SharesSumTo100` | real_menu_pricing.py:121-123 | when the counts sum to the batch size the percentages sum to 100 |
| `Tally.SharesOver` | analyze_real_data.py:92-94 | the percentage list pairs each key with its count over the denominator times 100 |
| `Tally.SharesScale` | analyze_real_data.py:92-94 | the percentages sum to the summed counts over the denominator times 100 |
| `Tiers.Insert` | menu_pricing.py:104 | inserting into an ascending list keeps it ascending and adds exactly that element |
| `Tiers.HeadBelowRest` | menu_pricing.py:104 | the head of an ascending list bounds every later element after an insertion |
| `Tiers.SortAscending` | menu_pricing.py:104 | `sorted(tiers)` is ascending and a permutation of the thresholds |
| `Tiers.Truncate` | menu_pricing.py:106 | `int(x)` truncates toward zero |
| `Tiers.TruncateMonotone` | menu_pricing.py:106 | truncation preserves order |
| `Tiers.FirstAtLeast` | menu_pricing.py:104-106 | the threshold found is in the list and at least the price; none is found exactly when every threshold is below the price |
| `Tiers.FirstAtLeastIsSmallest` | menu_pricing.py:104-106 | on a sorted list the threshold found is the smallest one at or above the price |
| `Tiers.ClassifySmallestFittingTier` | menu_pricing.py:103-106 | a price goes to the tier of the smallest threshold at or above it |
| `Tiers.ClassifyAtThreshold` | menu_pricing.py:105 | a price equal to a threshold goes to that threshold's tier (inclusive upper bound) |
| `Tiers.ClassifyAboveAll` | menu_pricing.py:107 | a price above every threshold is labelled from the last listed threshold, and with no thresholds it is an error |
| `Tiers.ClassifyMonotone` | menu_pricing.py:103-106 | a lower price never lands in a higher tier |
| `Tiers.DigitChar` | menu_pricing.py:106 | each digit renders as a character `0`–`9` |
| `Tiers.DecimalDigits` | menu_pricing.py:106 | the decimal rendering is non-empty and made of digits only |
| `Tiers.FormatDefaults` | menu_pricing.py:106 | `f"{n:,}"` renders 3990, 7990 and 9990 as `3,990`, `7,990`, `9,990` |
| `Tiers.RenderDefaults` | menu_pricing.py:106-107 | the default thresholds give the labels `≤3,990원`, `≤7,990원`, `≤9,990원` and `>9,990원` |
| `Tiers.DefaultTierBands` | menu_pricing.py:103-107 | with the default thresholds each price band gets its label, bounds inclusive |
| `Tiers.AboveUsesLastListed` | menu_pricing.py:107 | the above label follows `tiers[-1]`, not the largest threshold |
| `Tiers.CategorisePrice` | menu_pricing.py:103-107 | the early-return loop computes `Categorise`, and fails exactly when the threshold list is empty |
| `Tiers.DigitsOnly` | menu_pricing.py:200 | keeping only the digits yields digits only |
| `Tiers.DigitValue` | menu_pricing.py:201 | a digit character is worth less than ten |
| `Tiers.DigitsOnlyConcat` | menu_pricing.py:200 | digit filtering distributes over concatenation |
| `Tiers.DigitsOnlyOfDigits` | menu_pricing.py:200 | a string of digits is its own digit filter |
| `Tiers.DigitsOnlyGrouped` | menu_pricing.py:200 | filtering the digits of a comma-grouped numeral gives back the plain numeral |
| `Tiers.ParseDecimalDigits` | menu_pricing.py:201 | `float` of the rendered digits is the number rendered |
| `Tiers.DigitsOnlyFormatted` | menu_pricing.py:200 | the digits of `f"{n:,}"` are the decimal digits of abs(n) |
| `Tiers.DigitsOnlyFramed` | menu_pricing.py:200 | the `≤`/`>` prefix and the `원` suffix add no digits |
| `Tiers.CatKeyOfLabel` | menu_pricing.py:199-201 | `_cat_key` of a tier label returns the label's threshold (its absolute value) |
| `Tiers.CatKeyAboveTiesTop` | menu_pricing.py:199-201 | the above label sorts with the same key as the tier of the same threshold |
| `Tiers.DigitsOnlyEmpty` | menu_pricing.py:200 | filtering leaves nothing exactly when the text has no digit |
| `Tiers.CatKeyInfinite` | menu_pricing.py:201 | `_cat_key` is infinite exactly for labels with no digit |
| `MenuPricing.PricePerKg` | menu_pricing.py:38-42 | fails with the ingredient's name exactly when weight ≤ 0; otherwise the price times the weight is the cost |
| `MenuPricing.NormaliseWeight` | menu_pricing.py:64-73 | known unit tags succeed: grams are divided by 1000, kilograms and litres are kept; any other tag fails naming the tag and the ingredient |
| `MenuPricing.NormaliseWeightOfTag` | menu_pricing.py:64 | normalising an already normalised tag changes nothing |
| `MenuPricing.UnitTagExamples` | menu_pricing.py:64 | the tag is stripped and lower-cased, and a missing column reads as `kg` |
| `MenuPricing.NormaliseWeightExamples` | menu_pricing.py:64-73 | 500 with ` Grams ` is 0.5 kg, a missing unit keeps 2.0, and `oz` is an unknown-unit error |
| `MenuPricing.IngredientsFromOk` | menu_pricing.py:57-75 | reading the ingredient rows succeeds exactly when every row has a known unit |
| `MenuPricing.IngredientsFromOkKnown` | menu_pricing.py:57-75 | a successful read had a known unit in every row |
| `MenuPricing.IngredientsFromErrAt` | menu_pricing.py:72-73 | a failed read has a row whose unit is unknown |
| `MenuPricing.IngredientsFromStep` | menu_pricing.py:61-74 | one more row succeeds exactly when the previous rows did and the new row's unit is known |
| `MenuPricing.IngredientsFromContents` | menu_pricing.py:61-74 | the dictionary's keys are exactly the stripped names of the rows, and each entry carries its own key as name |
| `MenuPricing.NamedInSnoc` | menu_pricing.py:61-74 | one more row adds exactly its stripped name to the names read |
| `MenuPricing.ReadIngredients` | menu_pricing.py:57-75 | the reading loop computes `IngredientsFrom`, stopping at the first unknown unit |
| `MenuPricing.IngredientsFromPrefixErr` | menu_pricing.py:72-73 | once a prefix of the rows fails, the whole read fails with the same error |
| `MenuPricing.QuantitiesOfFacts` | menu_pricing.py:84-89 | a recipe keeps exactly the non-menu, non-blank cells with a positive quantity, and every stored quantity is positive |
| `MenuPricing.ReadRecipeRow` | menu_pricing.py:82-90 | a recipe row becomes its stripped menu name with the filtered quantities, all positive |
| `MenuPricing.ReadRecipes` | menu_pricing.py:77-91 | one recipe per row, in row order |
| `MenuPricing.CostOf` | menu_pricing.py:49-55 | the cost exists exactly when every item is priced; otherwise the error names a missing item |
| `MenuPricing.LineCosts` | menu_pricing.py:54 | each line's cost is its unit price times its quantity |
| `MenuPricing.CostWhenAllPriced` | menu_pricing.py:49-55 | with every item priced, the cost is the sum of the line costs |
| `MenuPricing.CostFirstMissing` | menu_pricing.py:52-53 | the error names the first item missing from the price list, and no partial total is returned |
| `MenuPricing.RecipeCost` | menu_pricing.py:49-55 | the accumulating loop computes `CostOf` over the recipe's items in insertion order |
| `MenuPricing.SuggestPrice` | menu_pricing.py:93-96 | fails exactly when the share is outside (0, 1); otherwise price × share = cost |
| `MenuPricing.GrossMargin` | menu_pricing.py:98-101 | fails exactly when the price is ≤ 0; otherwise margin × price = price − cost |
| `MenuPricing.MarginOfSuggestedPrice` | menu_pricing.py:93-101 | at the suggested price the margin is 1 − share when cost > 0; a cost of 0 gives price 0, where the margin fails |
| `MenuPricing.MarginAtShare` | menu_pricing_real.py:44-51 | when cost is the share of a positive price, the margin is 1 − share |
| `MenuPricing.PricesOverOk` | menu_pricing.py:168 | the price lookup succeeds exactly when every ingredient has positive weight |
| `MenuPricing.PricesOverValues` | menu_pricing.py:168 | the lookup has exactly the ingredient names as keys, each mapped to its `price_per_kg` |
| `MenuPricing.PriceLookupFacts` | menu_pricing.py:168 | the price lookup of the ingredient dictionary succeeds exactly when all weights are positive, and then holds every ingredient's price per kg |
| `MenuPricing.PrintSummary` | menu_pricing.py:166-181 | the summary loop computes `SummaryOf`: the lookup, then per recipe cost, suggested price, margin and tier, stopping at the first error |
| `MenuPricing.LinesOfPrefixErr` | menu_pricing.py:175-180 | an error on an earlier recipe ends the summary with that error |
| `MenuPricing.RecipeCostPositive` | menu_pricing.py:49-55 | a non-empty recipe of positive quantities at positive prices has a positive cost |
| `MenuPricing.PositiveLineCost` | menu_pricing.py:54 | a positive price and quantity give a positive line cost |
| `MenuPricing.PriceRecipeAtTarget` | menu_pricing.py:176-179 | a priceable recipe gets a line with its name, its cost as `CostOf` computes it, a price at which that cost is the share, margin 1 − share, and the price's tier |
| `MenuPricing.SummaryMarginsAreTarget` | menu_pricing.py:166-181 | with positive weights and costs, every recipe is summarised with its cost, a price at which that cost is the share, margin 1 − share, and the price's tier |
| `MenuPricing.PricesPositive` | menu_pricing.py:168 | positive weights and costs give positive unit prices for every ingredient |
| `MenuPricing.RecipesPriceable` | menu_pricing.py:175-176 | recipes over known ingredients with positive prices can all be costed |
| `MenuPricing.LinesOfAllPriced` | menu_pricing.py:175-180 | every priceable recipe gets one summary line with its cost, price cost / share, margin 1 − share and the price's tier, in order |
| `MenuPricing.LoadProducts` | menu_pricing.py:150-162 | each product yields one 1.0 kg ingredient costing 1000 × ratio and one recipe using 1.0 kg of it, in table order |
| `MenuPricing.IngredientsOfKeys` | menu_pricing.py:154-157 | the ingredient dictionary lists the products in table order, each weighing 1.0 kg |
| `MenuPricing.IngredientsOfEntry` | menu_pricing.py:155-157 | each product's entry is its 1.0 kg ingredient costing 1000 × ratio |
| `MenuPricing.LoadIngredients` | menu_pricing.py:154-157 | the first loop builds exactly that ingredient dictionary |
| `MenuPricing.LoadRecipes` | menu_pricing.py:160-162 | the second loop builds one single-ingredient recipe per product |
| `MenuPricing.LoadRealData` | menu_pricing.py:128-164 | the sixteen products load as sixteen ingredients and sixteen recipes |
| `MenuPricing.RealRecipeCost` | menu_pricing.py:150-162 | a loaded product's recipe costs 1000 × its ratio |
| `RatioPricing.MenuItem.constructor` | menu_pricing_real.py:32-39 | a new item carries its name, sales and ratio, with price 0, margin 0 and an empty tier |
| `RatioPricing.MenuItem.CalculatePricing` | menu_pricing_real.py:41-51 | sets the price to base cost × ratio / share; sets the margin only when the price is positive, otherwise keeps it; a positive price has margin 1 − share for any non-zero share; no other field changes |
| `RatioPricing.MenuItem.CategorizeTier` | menu_pricing_real.py:53-59 | sets only the tier to the price's label; an empty threshold list is an error that leaves the tier unchanged |
| `RatioPricing.ExcelRowByLabel` | menu_pricing_real.py:75-76 | as written: a row with a blank name cell is skipped, and every other row raises, because `row[-1]` looks up a column label that a header-less sheet never has; no row is ever accepted |
| `RatioPricing.ExcelRow` | menu_pricing_real.py:75-88 | as intended, with `row[-1]` the last cell: a row is accepted exactly when it has a name cell whose stripped text is non-empty, a blank or numeric sales cell, and a positive number in its last cell; the product carries that name, sales (0.0 when blank) and ratio; only a row too short to index aborts |
| `RatioPricing.RowOutcomeOf` | menu_pricing_real.py:75-88 | under either lookup, an accepted product has a non-empty name and a positive ratio |
| `RatioPricing.Outcomes` | menu_pricing_real.py:71-72 | one outcome per data row, in row order |
| `RatioPricing.CollectFacts` | menu_pricing_real.py:71-99 | the loop's result exists exactly when no row aborts, and then holds the product of every accepted row and nothing else |
| `RatioPricing.CollectNoAccept` | menu_pricing_real.py:71-99 | rows that accept nothing give an empty list or an aborted read |
| `RatioPricing.CollectPrefixNone` | menu_pricing_real.py:97-99 | a row that aborts the read empties the whole result |
| `RatioPricing.ExcelProducts` | menu_pricing_real.py:71-88 | every product read has a non-empty name and a positive ratio |
| `RatioPricing.ExcelProductsFromRows` | menu_pricing_real.py:71-99 | the read succeeds exactly when no data row aborts it, and then a product is in the result exactly when some data row is accepted with it |
| `RatioPricing.ByLabelReadsNothing` | menu_pricing_real.py:65-99 | as written, every sheet reads as no products: an empty list when every data row has a blank name cell, an aborted read otherwise |
| `RatioPricing.NamedRowAbortsByLabel` | menu_pricing_real.py:75 | three header rows and the row `김밥, 10, 0.4`: the label lookup aborts the read, the positional lookup reads the product `김밥` |
| `RatioPricing.ReadExcelData` | menu_pricing_real.py:61-99 | reads from the fourth row on; an aborted read gives no items, otherwise one fresh item per accepted row, in row order; with the label lookup the code performs, the result is always empty |
| `RatioPricing.NewItems` | real_menu_pricing.py:74-83 | one fresh unpriced item per product, in table order |
| `RatioPricing.LoadRealData` | real_menu_pricing.py:52-83 | the sixteen products become sixteen fresh unpriced items |
| `RatioPricing.TierColumn` | menu_pricing_real.py:135 | the tier column lists each item's tier |
| `RatioPricing.PriceColumn` | menu_pricing_real.py:123 | the price column lists each item's suggested price |
| `RatioPricing.MarginColumn` | menu_pricing_real.py:124 | the margin column lists each item's gross margin |
| `RatioPricing.PriceAll` | real_menu_pricing.py:212-214 | the main loop prices and tiers every item, each tier matching its own price; an item whose price is not positive keeps its margin; with no thresholds the first item is priced but keeps its tier, and the other items are untouched |
| `RatioPricing.PriceItem` | menu_pricing_real.py:234-236 | one loop step prices the item (price at the share, margin 1 − share when the price is positive, old margin otherwise), then tiers it; on the tier error the new price and margin stay and the tier is unchanged |
| `RatioPricing.PrintSummary` | menu_pricing_real.py:101-139 | mean, max and min price and mean margin over the batch, min ≤ mean ≤ max; tier counts are the tally of the tiers and sum to the batch size; each percentage is its count over the batch size × 100, and they sum to 100 |
| `RatioPricing.TierDistribution` | real_menu_pricing.py:117-123 | tier counts are the tally of the tiers and sum to the batch size; each percentage is its count over the batch size × 100, and they sum to 100 |
| `RatioPricing.PriceAndSummarise` | real_menu_pricing.py:212-217 | after pricing every item is priced at the share and tiered consistently, an item whose price is not positive keeps its margin, and the report counts the tiers actually assigned |
| `RatioPricing.SheetMain` | menu_pricing_real.py:208-239 | no items read means no summary; otherwise every item read is priced, tiered and counted, and one whose price is not positive keeps the margin 0.0; with the label lookup the code performs, it always stops before pricing |
| `RatioPricing.RealMain` | real_menu_pricing.py:192-217 | the sixteen table products are priced, tiered and counted, with counts summing to 16; an item whose price is not positive keeps the margin 0.0 |
| `RatioPricing.DefaultRun` | real_menu_pricing.py:192-217 | with the default arguments, every item with a ratio in the table's range lands in `≤3,990원` at margin 0.7, which is then the only tier |
| `RatioPricing.OneTier` | real_menu_pricing.py:117-119 | when all items share one tier, that tier is the only key of the distribution |
| `RatioPricing.RealDefaults` | real_menu_pricing.py:192-214 | every product of the table, priced with the defaults, is in `≤3,990원` at margin 0.7 |
| `RatioPricing.DefaultItem` | real_menu_pricing.py:32-50 | an item priced with the defaults is in the lowest tier at margin 0.7 |
| `RatioPricing.PriceInLowestTier` | real_menu_pricing.py:32-50 | a ratio in [0.223, 0.618] gives a default price of at most 2060, which is in the lowest tier |
| `RealData.LadderAgreesWithCategorise` | analyze_real_data.py:53-60 | the fixed ladder gives the same label as the general classifier on 3990, 7990, 9990 |
| `RealData.MarginOfRatio` | analyze_real_data.py:48-50 | for a non-zero ratio the margin at base cost 1000 and share 0.30 is 0.7 |
| `RealData.AnalyzeRealData` | analyze_real_data.py:27-94 | one price, margin and tier per product; mean, max and min over the prices with min ≤ mean ≤ max; mean margin 0.7; tier counts that sum to the product count; each percentage is its count over the product count × 100, and they sum to 100 |
| `RealData.ListProduct` | analyze_real_data.py:48-60 | one listing step computes the product's price and its ladder tier |
| `RealData.Ladders` | analyze_real_data.py:77-88 | the recomputed tiers pair each product with the ladder tier of its price |
| `RealData.CountRecomputed` | analyze_real_data.py:76-90 | the counting loop tallies the recomputed tiers, summing to the product count |
| `RealData.TableInLowestBand` | analyze_real_data.py:47-94 | ratios in [0.223, 0.618] give prices ≤ 2060, all in `≤3,990원`, the only tier counted |
| `RealData.ShopTableInLowestBand` | analyze_real_data.py:8-60 | every product of the shop's table is priced in the lowest band |
| `BpPricing.CostOf` | bp_menu_pricing.py:101-106 | the total cost if given; otherwise cost per kg × grams / 1000 when both are given; otherwise 0 |
| `BpPricing.PriceOf` | bp_menu_pricing.py:109-112 | the selling price if given, otherwise the price at which the cost is a 0.30 share |
| `BpPricing.MarginOf` | bp_menu_pricing.py:115-118 | the margin rate if given; otherwise (price − cost) / price for a positive price, else 0 |
| `BpPricing.DerivedMarginIsTarget` | bp_menu_pricing.py:109-118 | a menu with neither price nor margin given and positive cost gets margin 0.7 |
| `BpPricing.FeatureOf` | bp_menu_pricing.py:121-124 | no reason gives `BP 정리 자료`; a reason of at most 20 characters is kept; a longer one is cut to 20 plus `...` |
| `BpPricing.FeatureShort` | bp_menu_pricing.py:122 | a feature is at most 23 characters and starts with the reason's first 20 |
| `BpPricing.AnalyzeBpMenus` | bp_menu_pricing.py:93-138 | the three lists grow in lockstep with one entry per menu, and the statistics are their mean, max and min |
| `BpPricing.NamesIn` | bp_menu_pricing.py:147 | a category's list holds exactly the names of the menus of that category |
| `BpPricing.GroupedContents` | bp_menu_pricing.py:142-147 | the categories appear once each in first-seen order, and each maps to the names of its menus |
| `BpPricing.GroupedKeys` | bp_menu_pricing.py:142-146 | the keys are exactly the categories present, in first-seen order |
| `BpPricing.GroupedNames` | bp_menu_pricing.py:143-147 | each category's list is the names of its menus in order |
| `BpPricing.GroupsPartition` | bp_menu_pricing.py:142-147 | with distinct names, a menu is in exactly its own category's list |
| `BpPricing.GroupByCategory` | bp_menu_pricing.py:142-147 | the grouping loop builds exactly that grouping |
| `BpPricing.AppendName` | bp_menu_pricing.py:145-147 | one step appends the name to its category's list, creating the list if needed |
| `BpPricing.TableFacts` | bp_menu_pricing.py:15-78 | in the menu table the first three menus have margin 0.7, the first two cost 1000 and 1500, and the categories appear in their listed order |
| `ReviewKeywords.CountMentionsBounds` | naver_review_health_food_analysis.py:116-125 | a category's count lies between 0 and the number of reviews; it is 0 or all exactly when no review or every review mentions a keyword |
| `ReviewKeywords.Names` | naver_review_health_food_analysis.py:118 | the names list gives each category in order |
| `ReviewKeywords.CountsForKeys` | naver_review_health_food_analysis.py:118-125 | the counts have exactly the categories as keys, in order |
| `ReviewKeywords.CountsForEntry` | naver_review_health_food_analysis.py:118-125 | each category's count is the number of reviews mentioning one of its keywords |
| `ReviewKeywords.AnalyzeHealthKeywords` | naver_review_health_food_analysis.py:108-135 | the nested loops give each category its count of mentioning reviews, and the total is the number of reviews |
| `ReviewKeywords.CountReviews` | naver_review_health_food_analysis.py:119-125 | the loop with `break` counts each review at most once |
| `ReviewKeywords.InsertByCount` | naver_review_health_food_analysis.py:131 | inserting into a ranking keeps it non-increasing and adds exactly that element |
| `ReviewKeywords.HeadDominates` | naver_review_health_food_analysis.py:131 | the top of a ranking dominates every later entry after an insertion |
| `ReviewKeywords.RankByCount` | naver_review_health_food_analysis.py:131 | sorting by count in reverse gives a non-increasing permutation of the items |
| `ReviewKeywords.TopFiveFacts` | naver_review_health_food_analysis.py:188 | the top five are the first min(5, n) of the ranking, drawn from the items, each at least every entry after them |
| `ReviewKeywords.NonZeroCategories` | naver_review_health_food_analysis.py:176 | the non-zero list holds exactly the categories with a positive count |
| `ReviewKeywords.CountsOf` | naver_review_health_food_analysis.py:177 | the counts line up with the categories they belong to |
| `ReviewKeywords.NonZeroLinesUp` | naver_review_health_food_analysis.py:176-177 | the non-zero categories are exactly those with a positive count, and their counts line up with them and are all positive |
| `ReviewKeywords.HealthKeywordsWellFormed` | naver_review_health_food_analysis.py:23-34 | the keyword table has ten distinct categories |
| `Survey.Filter` | delivery_ashley_menu_analysis.py:87-93 | a filter keeps no more elements than it is given |
| `Survey.FilterFacts` | delivery_ashley_menu_analysis.py:87-93 | a filter keeps exactly the matching elements with their multiplicities |
| `Survey.FilterSnoc` | delivery_ashley_menu_analysis.py:90-92 | one more customer is appended exactly when it matches |
| `Survey.FilterAppend` | delivery_ashley_menu_analysis.py:90-92 | filtering distributes over concatenation, so the original order is kept |
| `Survey.ExtractTargetCustomers` | delivery_ashley_menu_analysis.py:87-93 | the loop keeps exactly the customers in their 40s or 50s, in order |
| `Survey.ComplaintCategoriesWellFormed` | delivery_ashley_menu_analysis.py:105-114 | the complaint table has eight distinct categories |
| `Survey.CategorizeFacts` | delivery_ashley_menu_analysis.py:129-131 | a category is listed exactly when one of its keywords occurs in the complaint, in table order and without duplicates |
| `Survey.CategorizeAppend` | delivery_ashley_menu_analysis.py:129-131 | categorising over a longer table appends the later categories |
| `Survey.AnyKeyword` | delivery_ashley_menu_analysis.py:130 | `any(keyword in complaints ...)` holds exactly when one keyword occurs |
| `Survey.MatchCategories` | delivery_ashley_menu_analysis.py:129-131 | the mapping loop builds the category list of the complaint |
| `Survey.ComplaintEntriesFacts` | delivery_ashley_menu_analysis.py:117-131 | one entry per complaining customer, in order, each built from that customer and the category table |
| `Survey.ComplaintEntriesCover` | delivery_ashley_menu_analysis.py:119-120 | no entry for `없음` or an empty complaint, and one for every other customer |
| `Survey.ComplaintEntriesFor` | delivery_ashley_menu_analysis.py:117-131 | the loop builds exactly those entries |
| `Survey.AnalyzeTargetComplaints` | delivery_ashley_menu_analysis.py:95-133 | returns the complaint entries of the targets and the category table |
| `Survey.NeedKeysDistinct` | delivery_ashley_menu_analysis.py:149-155 | the five health-need keys are distinct |
| `Survey.NeedsDictFacts` | delivery_ashley_menu_analysis.py:149-155 | the counter dictionary has the five keys in order with the counted values |
| `Survey.IncrementSalad` | delivery_ashley_menu_analysis.py:170-171 | incrementing the salad entry counts one more salad mention |
| `Survey.IncrementHomeMeal` | delivery_ashley_menu_analysis.py:172-173 | incrementing the home-meal entry counts one more home-meal mention |
| `Survey.IncrementSoup` | delivery_ashley_menu_analysis.py:174-175 | incrementing the soup entry counts one more soup mention |
| `Survey.IncrementFamily` | delivery_ashley_menu_analysis.py:177-179 | incrementing the family entry counts one more family visit |
| `Survey.CountedNeedsSnoc` | delivery_ashley_menu_analysis.py:161-179 | one more customer adds exactly its own mentions to the counters |
| `Survey.AnalyzeHealthHomeMealNeeds` | delivery_ashley_menu_analysis.py:135-197 | each need's counter is the number of customers mentioning it, except that Korean demand is always 4; the focused list is the customers wanting Korean food |
| `Survey.CountNeeds` | delivery_ashley_menu_analysis.py:161-179 | one loop step updates the counters for one customer |
| `Survey.CountHealthNeeds` | delivery_ashley_menu_analysis.py:168-175 | the health-needs step increments exactly the needs the text mentions |
| `Survey.Column` | delivery_ashley_menu_analysis.py:209-224 | a column lists one field per customer, in order |
| `Survey.FactorTablesWellFormed` | delivery_ashley_menu_analysis.py:227-272 | the factor tables have distinct names, and the menu table has no Korean-demand key |
| `Survey.CountFactors` | delivery_ashley_menu_analysis.py:227-256 | each factor counts the texts mentioning one of its keywords, and only mentioned factors become keys |
| `Survey.BumpedKeys` | delivery_ashley_menu_analysis.py:231-240 | bumping the factors for a text adds only factor keys |
| `Survey.BumpedOther` | delivery_ashley_menu_analysis.py:231-240 | a key that is not a factor is left alone |
| `Survey.BumpedEntry` | delivery_ashley_menu_analysis.py:231-240 | a factor gains one exactly when the text mentions it |
| `Survey.AddMentions` | delivery_ashley_menu_analysis.py:231-240 | one text's checks add one to each factor it mentions and nothing else |
| `Survey.Pieces` | delivery_ashley_menu_analysis.py:263 | the menu text splits on `,` into stripped pieces |
| `Survey.PiecesFacts` | delivery_ashley_menu_analysis.py:263 | no piece contains a comma or has surrounding whitespace |
| `Survey.CountMentionsAppend` | delivery_ashley_menu_analysis.py:264-272 | counting over concatenated fragments adds the counts |
| `Survey.MenuCounts` | delivery_ashley_menu_analysis.py:259-275 | the menu dictionary maps each menu factor to the number of preferred-menu fragments naming it, maps the Korean-demand key to 4, and holds no other key; a factor is a key exactly when some fragment names it |
| `Survey.ChartCounts` | delivery_ashley_menu_analysis.py:199-275 | the age, gender and visit distributions each sum to the customer count; the satisfaction and complaint factors count the noted texts; each menu key counts the fragments mentioning it, and the menu keys are exactly the Korean-demand key (fixed at 4) and the menu factors mentioned at least once |
| `Survey.SurveyTargets` | delivery_ashley_menu_analysis.py:24-93 | eight of the twelve surveyed customers are in their 40s or 50s |
| `Survey.SurveyKoreanDemand` | delivery_ashley_menu_analysis.py:161-182 | exactly four surveyed customers ask for Korean food, the same as the constant 4 |
| `Survey.NoKoreanInNone` | delivery_ashley_menu_analysis.py:163 | the answer `없음` never counts as Korean demand |
| `Survey.LoadSurvey` | delivery_ashley_menu_analysis.py:19-93 | the survey has twelve customers, eight of them targets |

## Findings

| source | as written | input that shows it | evidently intended | confidence | as-written member | corrected member |
|---|---|---|---|---|---|---|
| menu_pricing_real.py:75 | `row[-1]` on a row of a sheet read with `header=None` looks up the column label -1, which does not exist; the `KeyError` escapes the inner `try` and the outer `except` returns `[]`, so no sheet ever yields an item and `main` always stops at "no valid data" | a sheet of three header rows and the row `김밥, 10, 0.4` | `row[-1]` means the last cell (`row.iloc[-1]`), so the row becomes the item `김밥` with ratio 0.4 | high; not executed | `RatioPricing.ByLabelReadsNothing` | `RatioPricing.ExcelProductsFromRows` |

## Left out

- File and spreadsheet reading (`csv.DictReader`, `pd.read_excel`, `open`): rows arrive already parsed. `float(...)` on a malformed cell is not modelled. A cell is a number or blank.
- `generate_menu_board` in all three pricing scripts and every chart function: matplotlib drawing only. `_cat_key` is modelled with its key/label round trip, but not the `sorted(set(...))` call that uses it.
- `argparse` and all printing, including display rounding (`:,.0f`, `.1%`) and the `sorted(tier_counts.items())` used only to order the printed lines. The model keeps counts in insertion order.
- IEEE floating point: prices, ratios and margins are exact reals, so rounding in `/` and `*` is not captured.
- `load_sample_data` in `menu_pricing.py`: a second fixture table that feeds the same engine.
- The per-ingredient breakdown dictionaries inside the BP menu table: only printed, never used in any computation.
- `derive_menu_development_insights` and `create_menu_development_strategy`: the first calls a method that does not exist; both only print.
- `customer_survey_analysis.py`, `complaint_analysis_chart.py`, `create_health_focused_chart.py`, `simple_health_analysis.py` and `test_excel.py`: pandas, plotting and hard-coded values with no computation of their own.
- `RatioPricing.MenuItem.CalculatePricing`: requires a non-zero share. The source does not check it and divides by zero.
- `RatioPricing.PrintSummary`: requires a non-empty batch, where `np.max` of an empty list raises. Both mains return early or always pass sixteen items.
- `RatioPricing.ExcelRow`: pandas row access is reduced to a list of cells, read either by column label (as the code does) or by position (as intended). A row too short to index aborts the whole read, as the outer `except` does.
- `Text.Lower` and `Text.LowerChar`: lower-case ASCII letters and the Kelvin sign only. Python's `str.lower` covers all of Unicode. The unit tags compared against are ASCII, so no other letter matches a known unit either way.
- `Tiers.CatKeyInfinite`: the model's digits are the ASCII digits. Python's `str.isdigit` also accepts other Unicode digits, which tier labels never contain.
- `ReviewKeywords.RankByCount`: states a non-increasing permutation, but not that equal counts keep dictionary order, as Python's stable sort does.
- `Survey.CountFactors`, `Survey.MenuCounts`, `Survey.ChartCounts`: each chart counter is checked in the source order of its `if` tests, so keys enter the dictionary in that order. The model proves the counts and the key set, not the key order.
