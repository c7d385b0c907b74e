# Card-Compass reward optimiser, modelled in Dafny

This project models `RewardCalculator` in `src/reward_calculator.py`. It is
the engine of Card-Compass that takes the credit cards a user holds, the
user's monthly spending per category and a preference (`cashback`,
`points` or anything else). It decides which card to use in each category
and produces advisory recommendations. The model covers:

- **Card records and defaults** (`cards.dfy`, module `CardModel`). A card
  has an optional `type`, a `rewards` record and an optional annual fee. The
  `rewards` record holds an optional base rate, a category-to-rate map and a
  quarter-to-text rotating schedule. A missing base rate reads as 1 and a
  missing fee as 0.
- **Text matching** (`text.dfy`, module `Text`). ASCII lower-casing and
  substring search, used by the rotating-category match.
- **Rate resolution** (`rates.dfy`, module `Rates`):
  - the fixed synonym table and the quarter of a month;
  - the precedence: a direct category key, then the first synonym present,
    then the rotating 5x rate when this quarter's schedule text mentions an
    alias, then the base rate;
  - conversion to a reward: a cashback rate is a percentage, any other rate
    a multiplier.
- **Selection** (`selection.dfy`, module `Selection`):
  - the preference filter;
  - the best-card loop, which keeps a card only when its reward strictly
    beats the best so far (starting at 0) and otherwise falls back to the
    first card at its base rate.
- **Recommendations** (`recommendations.dfy`, module `Recommendations`):
  - under-served categories (a card whose per-unit rate exceeds 1.5 times
    the achieved rate);
  - the first fee-bearing card whose yearly net gain exceeds 100;
  - the quarterly rotating reminder and the sign-up nudge;
  - the list they are assembled into.
- **Orchestration** (`optimizer.dfy`, module `Optimizer`):
  - the no-cards guard;
  - one breakdown row per category with a positive amount, in spending
    order, with its reward and its reward per unit;
  - the monthly total, the annual total (twelve times the monthly total),
    the currency label and the recommendations.
- **Worked examples** (`scenarios.dfy`, module `Scenarios`), on the sample
  Discover it Cash Back and American Express Gold cards from
  `src/data_manager.py`.

The loops of the functions that work step by step (the best-card loop, the
spending loop of `optimize_spending`, the two nested loops of the
recommendation heuristics and the list appends of `_generate_recommendations`)
are `method`s proved equal to specification functions. The expression-level
iteration (the synonym scan, the list comprehensions of the preference filter,
`any(...)` and `sum(...)`) is written as recursive functions. The properties
the source promises are proved about those functions.

Amounts and rates are `real`. The current month is a parameter in place of
the clock. Spending is a sequence of (category, amount) pairs in insertion
order. The lemmas that need the dictionary's distinct keys state them as a
precondition (`Optimizer.DistinctKeys`).

When the preference is neither `cashback` nor `points`, the source compares
and sums cashback dollars and points in one scale, and labels the total
"points". The model does the same.

## Model

| member | source | states |
|---|---|---|
| CardModel.BaseRate | src/reward_calculator.py:142 | a missing base rate reads as 1, a present one as itself |
| CardModel.AnnualFee | src/reward_calculator.py:220 | a missing annual fee reads as 0, a present one as itself |
| CardModel.IsCashback | src/reward_calculator.py:144 | the card's `type` is `"cashback"`, the test that makes its rates percentages at lines 117, 124, 135 and 144; a card without a type is not cashback |
| Text.Lower | src/reward_calculator.py:133 | lower-casing keeps the length and maps each ASCII capital to its small letter, leaving every other character alone |
| Text.Contains | src/reward_calculator.py:133 | the substring test holds exactly when the pattern occurs at some position of the text |
| Rates.Variations | src/reward_calculator.py:9-19 | a category in the synonym table has that table's aliases, in table order; any other category is its own only alias |
| Rates.Quarter | src/reward_calculator.py:149-159 | every month maps to one of Q1..Q4, and month m in 1..12 maps to quarter (m - 1) / 3 |
| Rates.QuarterMonotone | src/reward_calculator.py:149-159 | a later month never maps to an earlier quarter |
| Rates.FirstPresent | src/reward_calculator.py:120-124 | the index found is the first alias that is a key; every alias before it is absent |
| Rates.AnyOccurs | src/reward_calculator.py:133 | true exactly when some alias occurs in the text |
| Rates.RotatingApplies | src/reward_calculator.py:127-133 | the rotating bonus applies when the card has a `rotating_5x` rate, the schedule has an entry for the current quarter, and that entry, lower-cased, contains an alias; its precedence is stated by `Rates.ResolvePrecedence` |
| Rates.Resolve | src/reward_calculator.py:108-138 | the rule that supplies the rate and the rate itself, tried in source order; its contract is `Rates.ResolvePrecedence` |
| Rates.ResolvePrecedence | src/reward_calculator.py:108-138 | a direct key wins; otherwise a synonym applies exactly when one is a key, and it is the first such in table order; otherwise the rotating rate applies exactly when its key exists and this quarter's lower-cased schedule text contains an alias; otherwise the base rate |
| Rates.UnitRate | src/reward_calculator.py:117 | the reward per unit spent: the resolved rate over 100 for a cashback card, the rate itself otherwise; related to the reward by `Rates.RewardPerUnit` |
| Rates.RewardFor | src/reward_calculator.py:108-138 | the reward of one card on one amount in one category; its unit conversion is `Rates.UnitConversion` |
| Rates.BaseUnitRate | src/reward_calculator.py:142-147 | the base rate per unit spent, converted the same way |
| Rates.BaseReward | src/reward_calculator.py:140-147 | the reward at the card's base rate; `Rates.UnitConversion` and `Rates.FallbackIsBaseReward` state it |
| Rates.UnitConversion | src/reward_calculator.py:117 | a cashback card earns the amount times its resolved rate over 100, any other card the amount times the rate; the base-rate reward converts the same way |
| Rates.FallbackIsBaseReward | src/reward_calculator.py:137-147 | when no rule but the last applies, the reward is the base-rate reward of the card |
| Rates.RewardPerUnit | src/reward_calculator.py:57 | reward divided by a non-zero amount gives back the per-unit rate, the quantity the source computes as `reward_amount / amount` |
| Rates.ResolvedRateNonNegative | src/reward_calculator.py:114-138 | with non-negative rates the resolved rate and the per-unit rate are non-negative |
| Rates.RewardNonNegative | src/reward_calculator.py:117 | with non-negative rates and amount the reward is non-negative |
| Rates.RewardMonotone | src/reward_calculator.py:117 | with non-negative rates the reward never decreases as the amount grows |
| Rates.BaseRewardNonNegative | src/reward_calculator.py:140-147 | with non-negative rates and amount the base-rate reward is non-negative |
| Selection.KeepKind | src/reward_calculator.py:82 | every kept card has the requested type |
| Selection.KeepKindSelectsExactly | src/reward_calculator.py:82 | each card of the requested type is kept as often as it occurs, no other card is kept, and the kept cards keep their order |
| Selection.FilterByPreference | src/reward_calculator.py:79-86 | under "cashback" or "points" every kept card has that type; any other preference keeps the list unchanged |
| Selection.FilterByPreferenceSelectsExactly | src/reward_calculator.py:79-86 | under "cashback" or "points" exactly the cards of that type are kept, with their multiplicity; the result is always a subsequence of the held cards |
| Selection.RunningBest | src/reward_calculator.py:91-99 | the loop holds no card with reward 0 and rate 0, or a card with a positive reward |
| Selection.RunningBestIsUpperBound | src/reward_calculator.py:94-99 | no card's reward exceeds the reward the loop holds |
| Selection.TakenCardBeatsEarlierCards | src/reward_calculator.py:94-99 | when the loop takes a card, every card before it earns strictly less |
| Selection.RunningBestIsFirst | src/reward_calculator.py:94-99 | a held card is a card of the list, held with its own reward and per-unit rate, and every card before it earns strictly less |
| Selection.RunningBestIsFirstMaximum | src/reward_calculator.py:91-99 | the loop holds nothing exactly when no reward is positive; otherwise it holds the first card with the largest reward |
| Selection.RunningBestHoldsOwnRates | src/reward_calculator.py:94-99 | a held card is held with its own reward and its own per-unit rate |
| Selection.RunningBestRewardIsAmountTimesRate | src/reward_calculator.py:94-99 | the reward held is the amount times the per-unit rate held |
| Selection.BestCard | src/reward_calculator.py:88-106 | no cards give no card and 0; any card gives some card |
| Selection.BestCardIsFirstMaximum | src/reward_calculator.py:88-106 | when some reward is positive, the first card with the largest reward and its reward; when none is, the first card at its base rate |
| Selection.ChoiceRewardIsAmountTimesRate | src/reward_calculator.py:88-106 | the selected reward is the amount times the selected per-unit rate |
| Selection.ChoiceRateNonNegative | src/reward_calculator.py:88-106 | with non-negative rates on every card the selected per-unit rate is non-negative |
| Selection.FindBestCard | src/reward_calculator.py:88-106 | the loop returns the selected card and reward |
| Recommendations.FlaggedByUnitRate | src/reward_calculator.py:202-208 | a row with a positive amount is flagged exactly when some card's per-unit rate in that category exceeds 1.5 times the achieved rate |
| Recommendations.PotentialRate | src/reward_calculator.py:203-206 | the per-unit rate a card would earn on a row, 0 for a non-positive amount; `Recommendations.FlaggedByUnitRate` relates it to the card's rate |
| Recommendations.Flagged | src/reward_calculator.py:202-208 | some card's potential rate beats the row's rate by more than half |
| Recommendations.MissingSpec | src/reward_calculator.py:193-212 | a category is listed exactly when its row is flagged, and the list keeps breakdown order |
| Recommendations.MissingListedOnce | src/reward_calculator.py:198-210 | no category is listed twice when the breakdown has no repeated category |
| Recommendations.RowFlagged | src/reward_calculator.py:202-210 | the card scan stops with a hit exactly when the row is flagged |
| Recommendations.FindMissingCategories | src/reward_calculator.py:193-212 | the loop returns the flagged categories in breakdown order |
| Recommendations.TotalReward | src/reward_calculator.py:45-67 | the sum of the breakdown's rewards, the monthly total `total_rewards`; `Recommendations.TotalRewardAppend` and `Recommendations.CurrentAnnualIsTwelveTimesTotal` relate it |
| Recommendations.TotalRewardAppend | src/reward_calculator.py:59 | adding a row adds its reward to the total |
| Recommendations.CurrentAnnualIsTwelveTimesTotal | src/reward_calculator.py:216 | the sum of each reward times 12 is twelve times the summed rewards |
| Recommendations.CurrentAnnual | src/reward_calculator.py:216 | the sum of each row's reward times 12; equal to twelve times the total by `Recommendations.CurrentAnnualIsTwelveTimesTotal` |
| Recommendations.Potential | src/reward_calculator.py:223-226 | the sum over every row of what the card would earn there; computed by `Recommendations.PotentialOf` |
| Recommendations.NetBenefit | src/reward_calculator.py:228-229 | twelve times the card's potential, less the current annual reward and the card's fee |
| Recommendations.WorthTheFee | src/reward_calculator.py:220-231 | the card has a positive fee and a net benefit over 100; `Recommendations.FeeSpec` picks the first such card |
| Recommendations.FeeSpec | src/reward_calculator.py:214-239 | no fee recommendation exactly when no card has a positive fee and a net yearly gain over 100; otherwise it names the first such card, with its net gain and fee |
| Recommendations.FeeSpecFirst | src/reward_calculator.py:219-237 | the first card worth its fee is the one recommended |
| Recommendations.PotentialOf | src/reward_calculator.py:223-226 | the inner loop sums the card's reward over every row |
| Recommendations.AnalyzeAnnualFees | src/reward_calculator.py:214-239 | the loop returns the fee recommendation of the first card worth its fee, or none |
| Recommendations.Assemble | src/reward_calculator.py:164-191 | the optional missing-categories entry, the optional fee entry, the rotating reminder and the sign-up nudge, in that order; `Recommendations.AssembleOrder` and `Recommendations.AssemblePresence` state it |
| Recommendations.AssembleOrder | src/reward_calculator.py:164-191 | each kind appears at most once, in the order missing categories, annual fee, rotating, sign-up bonus; the last two are always present |
| Recommendations.AssemblePresence | src/reward_calculator.py:167-179 | the missing-categories entry is present exactly when something is missing, with that list; the fee entry exactly when one was found, as found |
| Recommendations.TypeOf | src/reward_calculator.py:169-260 | the kind of each recommendation, whose `type` string is set at lines 170, 233, 247 and 257 |
| Recommendations.TypeNamesDistinct | src/reward_calculator.py:169-260 | the four `type` strings `missing_categories`, `annual_fee`, `rotating` and `signup_bonus` are pairwise distinct, so a kind and its `type` field determine each other |
| Recommendations.PriorityOf | src/reward_calculator.py:169-260 | the `priority` of each kind as set at lines 173, 236, 250 and 260: high, medium, low, low; `Recommendations.PrioritiesDescend` orders the list by it |
| Recommendations.PrioritiesDescend | src/reward_calculator.py:169-189 | priorities never rise along the list: high, then medium, then low |
| Recommendations.RecommendationsSpec | src/reward_calculator.py:161-191 | kinds in the fixed order; the rotating reminder for the current quarter and the sign-up nudge close the list; missing categories present exactly when a row is flagged; an annual-fee entry exactly when some card is worth its fee |
| Recommendations.MissingNonEmptyIffFlagged | src/reward_calculator.py:167-168 | some category is listed exactly when some row is flagged |
| Recommendations.CountTypeAppend | src/reward_calculator.py:164-191 | counting by type adds up over concatenation |
| Recommendations.CountParts | src/reward_calculator.py:164-191 | the count of each type is the sum over the three parts of the assembled list |
| Recommendations.AssembleCounts | src/reward_calculator.py:164-191 | rotating and sign-up appear once each; missing categories once when something is missing, else never; annual fee once when one was found, else never |
| Recommendations.RecommendationCounts | src/reward_calculator.py:161-261 | rotating and sign-up appear exactly once each; missing categories once exactly when a row is flagged; annual fee once exactly when some card is worth its fee |
| Recommendations.GenerateRecommendations | src/reward_calculator.py:161-191 | the appends produce exactly the specified list |
| Optimizer.Currency | src/reward_calculator.py:73 | "USD" exactly for the cashback preference, "points" for every other |
| Optimizer.EntryFor | src/reward_calculator.py:53-58 | the row carries the category and the amount |
| Optimizer.EntryRateIsRewardPerUnit | src/reward_calculator.py:57 | the row's rate is its reward divided by the amount when the amount is positive, 0 otherwise |
| Optimizer.Positive | src/reward_calculator.py:47-48 | the spending entries with a positive amount, in spending order; every kept amount is positive |
| Optimizer.Rows | src/reward_calculator.py:49-58 | one row per entry, each the `Optimizer.EntryFor` row of that entry |
| Optimizer.Breakdown | src/reward_calculator.py:44-58 | the rows of the positive entries; `Optimizer.BreakdownCoversPositiveAmounts` states coverage and order |
| Optimizer.PositiveKeepsPlanOrder | src/reward_calculator.py:47-48 | exactly the entries with a positive amount are visited, and their categories keep the spending order |
| Optimizer.RowsKeepPlan | src/reward_calculator.py:47-58 | one row per visited entry, with its category and amount |
| Optimizer.BreakdownStep | src/reward_calculator.py:47-58 | one more step adds the next category's row exactly when its amount is positive |
| Optimizer.BreakdownCategories | src/reward_calculator.py:47-53 | the breakdown's categories are those of the positive entries, in order |
| Optimizer.RowOfPositiveEntry | src/reward_calculator.py:47-58 | an entry with a positive amount has a row with its category and amount |
| Optimizer.PositiveEntriesHaveRows | src/reward_calculator.py:47-58 | every category with a positive amount has a row with that amount |
| Optimizer.RowsComeFromPositiveEntries | src/reward_calculator.py:47-58 | every row carries the category and amount of a spending entry with a positive amount |
| Optimizer.BreakdownCoversPositiveAmounts | src/reward_calculator.py:47-58 | every positive category has a row with its amount, every row comes from a positive entry, and rows keep spending order |
| Optimizer.PositiveKeysDistinct | src/reward_calculator.py:47-53 | with distinct spending keys the visited categories are distinct |
| Optimizer.LastKeyIsNew | src/reward_calculator.py:47-53 | with distinct spending keys the last category is not among those visited before it |
| Optimizer.BreakdownListsEachCategoryOnce | src/reward_calculator.py:47-53 | with distinct spending keys each category has at most one row |
| Optimizer.NothingSpentNothingEarned | src/reward_calculator.py:47-59 | with no positive amount there is no row and the total is 0 |
| Optimizer.NoEligibleCardEarnsNothing | src/reward_calculator.py:49-59 | with no eligible card every row has no card, reward 0 and rate 0, and the total is 0 |
| Optimizer.RewardsNeverNegative | src/reward_calculator.py:47-59 | with non-negative rates and amounts every row's reward and rate, and the total, are non-negative |
| Optimizer.OptimizeCategory | src/reward_calculator.py:49-58 | the loop body builds the specified row for a positive amount |
| Optimizer.BreakdownLoop | src/reward_calculator.py:44-59 | the loop builds the specified breakdown and its running total |
| Optimizer.OptimizationOf | src/reward_calculator.py:34-77 | the result of an optimisation; `Optimizer.OptimizationTotals` states its guard and totals |
| Optimizer.OptimizationTotals | src/reward_calculator.py:34-75 | no cards give the error message and no recommendations whatever the spending; otherwise the breakdown over the filtered cards, monthly total = sum of rewards, annual = 12 × monthly, the currency label and the recommendations over every held card |
| Optimizer.Optimize | src/reward_calculator.py:21-77 | the method returns the specified optimisation result |
| Scenarios.DiscoverGasInFirstQuarter | src/data_manager.py:133-157 | the sample Discover card earns the 5% rotating rate on gas in the first quarter: 100 spent gives 5 |
| Scenarios.DiscoverGasInFourthQuarter | src/data_manager.py:133-157 | the same card falls back to its 1% base rate on gas in the fourth quarter: 100 spent gives 1 |
| Scenarios.AmexGoldGroceriesRow | src/data_manager.py:158-176 | the sample Amex Gold card, alone, gives the groceries row for 500: itself, 2000 points, 4 per unit |
| Scenarios.AmexGoldGroceries | src/data_manager.py:158-176 | under the points preference the filter keeps the sample Amex Gold card, and the breakdown of 500 on groceries is the single row selecting it with 2000 points at 4 per unit |
| Scenarios.NoRewardsRecordEarnsBaseRateOne | src/reward_calculator.py:108-147 | a card without a `rewards` record resolves every category to the base rate 1: the amount itself on a points card, the amount over 100 on a cashback card |
| Scenarios.PointsPreferenceWithCashbackCardsOnly | src/reward_calculator.py:83-84 | asking for points while holding only the cashback sample card leaves nothing eligible: no row has a card and the total is 0 |

## Left out

- The Flask routes (`app.py`), the JSON persistence of `src/data_manager.py` and the scraper under `src/scrapers/` are not part of this model.
- The clock: the month is a parameter of one optimisation. The source reads the clock separately in rate resolution and in the rotating reminder, so a run spanning a quarter boundary could see two quarters; the model uses one month for both.
- `round(..., 2)` of the two totals, the `optimization_date` timestamp, and the titles and descriptions built with f-strings. Recommendations are modelled by kind and by the data their text is built from, and totals before rounding.
- Floating point: amounts and rates are reals, so sums and divisions are exact.
- `str.lower()` is modelled for ASCII letters only; other Unicode case mappings are not.
- The `preference` argument of `_generate_recommendations` is unused in the source and not passed in the model; `_check_rotating_categories` and `_check_signup_bonuses` ignore their arguments and become the constant entries `RotatingReminder(quarter)` and `SignupBonus`.
- A card without a `name` raises `KeyError` in the source when it is recommended for its fee; in the model every card has a name.
- Missing `categories` and `rotating_schedule` records are modelled as empty maps, which behave the same in every lookup.
- Spending is a sequence of pairs, not a dictionary: properties that need unique keys take `Optimizer.DistinctKeys` as a precondition.
- Optimizer.EntryFor: defines the row's rate through the selected per-unit rate; `Optimizer.EntryRateIsRewardPerUnit` proves it equal to the source's `reward / amount` for a positive amount.
- Optimizer.BreakdownLoop and Optimizer.OptimizeCategory: the source's single loop in `optimize_spending` is split into these two methods plus `Optimizer.Optimize`; the computation is the same.
- The default value `"cashback"` of the `preference` argument of `optimize_spending` is not modelled: `Optimizer.Optimize` always takes a preference, and a caller relying on the default passes `"cashback"`.
- Recommendations.RowFlagged and Recommendations.PotentialOf: the inner loops of `_find_missing_high_reward_categories` and `_analyze_annual_fees` are separate methods called from the outer loops.
