/** Worked examples on the repository's own sample cards. */
module Scenarios {
  import opened CardModel
  import opened Rates
  import opened Selection
  import opened Optimizer
  import Text

  /** The sample Discover it Cash Back card: 1% base, a 5% rotating bonus. */
  const Discover: Card := Card(
    "discover_it_cash_back", "Discover it Cash Back", Some("cashback"),
    Rewards(Some(1.0), map["rotating_5x" := 5.0, "all_purchases" := 1.0],
      map["Q1" := "gas_stations_grocery_stores", "Q2" := "restaurants_paypal_gas_stations",
          "Q3" := "walmart_drugstores", "Q4" := "amazon_target"]),
    Some(0.0))

  /** The sample American Express Gold card: 4 points on dining and groceries. */
  const AmexGold: Card := Card(
    "amex_gold", "American Express Gold Card", Some("points"),
    Rewards(Some(1.0), map["dining" := 4.0, "groceries" := 4.0, "all_purchases" := 1.0], map[]),
    Some(250.0))

  /** Neither "gas" nor any of its synonyms is a category key of the card. */
  lemma GasHasNoDiscoverKey()
    ensures "gas" !in Discover.rewards.categories
    ensures forall a :: a in Variations("gas") ==> a !in Discover.rewards.categories
  {
    assert Variations("gas") == ["gas", "gas_stations", "fuel"];
  }

  /** The first-quarter schedule entry, lower-cased. */
  lemma FirstQuarterText()
    ensures Quarter(2) in Discover.rewards.rotatingSchedule
    ensures Text.Lower(Discover.rewards.rotatingSchedule[Quarter(2)]) == "gas_stations_grocery_stores"
  {
    assert Quarter(2) == "Q1";
    assert Discover.rewards.rotatingSchedule["Q1"] == "gas_stations_grocery_stores";
    Text.LowerOfLowercase("gas_stations_grocery_stores");
  }

  /** The fourth-quarter schedule entry, lower-cased. */
  lemma FourthQuarterText()
    ensures Quarter(11) in Discover.rewards.rotatingSchedule
    ensures Text.Lower(Discover.rewards.rotatingSchedule[Quarter(11)]) == "amazon_target"
  {
    assert Quarter(11) == "Q4";
    assert Discover.rewards.rotatingSchedule["Q4"] == "amazon_target";
    Text.LowerOfLowercase("amazon_target");
  }

  /** "gas" occurs at the start of the first-quarter text. */
  lemma GasInFirstQuarterText()
    ensures AnyOccurs(Variations("gas"), "gas_stations_grocery_stores")
  {
    assert Text.OccursAt("gas_stations_grocery_stores", "gas", 0);
    assert Text.Contains("gas_stations_grocery_stores", "gas");
    assert Variations("gas") == ["gas", "gas_stations", "fuel"];
  }

  /** No alias of gas occurs in the fourth-quarter text: it has no 's' and no 'f'. */
  lemma GasNotInFourthQuarterText()
    ensures !AnyOccurs(Variations("gas"), "amazon_target")
  {
    var text := "amazon_target";
    assert 's' !in text && 'f' !in text;
    assert 's' in "gas" && 's' in "gas_stations" && 'f' in "fuel";
    Text.MissingCharNoOccurrence(text, "gas", 's');
    Text.MissingCharNoOccurrence(text, "gas_stations", 's');
    Text.MissingCharNoOccurrence(text, "fuel", 'f');
    assert Variations("gas") == ["gas", "gas_stations", "fuel"];
  }

  /** The first-quarter schedule text mentions gas. */
  lemma GasScheduledInFirstQuarter()
    ensures RotatingApplies(Discover, "gas", 2)
  {
    FirstQuarterText();
    GasInFirstQuarterText();
  }

  /** The fourth-quarter schedule text mentions none of gas's aliases. */
  lemma GasNotScheduledInFourthQuarter()
    ensures !RotatingApplies(Discover, "gas", 11)
  {
    FourthQuarterText();
    GasNotInFourthQuarterText();
  }

  /** In the first quarter the schedule mentions gas: 100 spent earns 5% back. */
  lemma DiscoverGasInFirstQuarter()
    ensures Resolve(Discover, "gas", 2) == Rotating(5.0)
    ensures RewardFor(Discover, "gas", 100.0, 2) == 5.0
  {
    GasHasNoDiscoverKey();
    GasScheduledInFirstQuarter();
    ResolvePrecedence(Discover, "gas", 2);
  }

  /** In the fourth quarter the schedule does not mention gas: 1% back. */
  lemma DiscoverGasInFourthQuarter()
    ensures Resolve(Discover, "gas", 11) == Base(1.0)
    ensures RewardFor(Discover, "gas", 100.0, 11) == 1.0
  {
    GasHasNoDiscoverKey();
    GasNotScheduledInFourthQuarter();
    ResolvePrecedence(Discover, "gas", 11);
  }

  /** The row of 500 spent on groceries when Amex Gold is the only eligible card. */
  lemma AmexGoldGroceriesRow(month: int)
    ensures EntryFor("groceries", 500.0, [AmexGold], month) ==
      Entry("groceries", 500.0, Some(AmexGold), 2000.0, 4.0)
  {
    assert Resolve(AmexGold, "groceries", month) == Direct(4.0);
    assert UnitRate(AmexGold, "groceries", month) == 4.0;
    assert RewardFor(AmexGold, "groceries", 500.0, month) == 2000.0;
    assert [AmexGold][..0] == [];
    assert RunningBest([AmexGold], "groceries", 500.0, month) == Choice(Some(AmexGold), 2000.0, 4.0);
  }

  /** A points card with a direct grocery rate under the points preference:
      the filter keeps it, and 500 spent on groceries earns 2000 points, 4 per
      unit, with the card selected. */
  lemma AmexGoldGroceries(month: int)
    ensures FilterByPreference([AmexGold], "points") == [AmexGold]
    ensures Breakdown([("groceries", 500.0)], FilterByPreference([AmexGold], "points"), month) ==
      [Entry("groceries", 500.0, Some(AmexGold), 2000.0, 4.0)]
  {
    assert [AmexGold][1..] == [];
    assert KeepKind([AmexGold], "points") == [AmexGold];
    var plan := [("groceries", 500.0)];
    assert plan[..0] == [];
    assert Positive(plan) == plan;
    AmexGoldGroceriesRow(month);
    assert Rows(plan, [AmexGold], month) == [EntryFor("groceries", 500.0, [AmexGold], month)];
  }

  /** A card without a `rewards` record has no category rates, so every
      category falls back to the default base rate of 1: one point per unit
      on a points card, one percent on a cashback card. */
  lemma NoRewardsRecordEarnsBaseRateOne(card: Card, category: string, amount: real, month: int)
    requires card.rewards == NoRewards
    ensures Resolve(card, category, month) == Base(1.0)
    ensures IsCashback(card) ==> RewardFor(card, category, amount, month) == amount / 100.0
    ensures !IsCashback(card) ==> RewardFor(card, category, amount, month) == amount
  {
    ResolvePrecedence(card, category, month);
  }

  /** Asking for points while holding only cashback cards leaves nothing
      eligible: no row selects a card and every total is 0. */
  lemma PointsPreferenceWithCashbackCardsOnly(spending: seq<(string, real)>, month: int)
    ensures FilterByPreference([Discover], "points") == []
    ensures forall k :: 0 <= k < |Breakdown(spending, FilterByPreference([Discover], "points"), month)| ==>
      Breakdown(spending, FilterByPreference([Discover], "points"), month)[k].bestCard == None
    ensures Recommendations.TotalReward(Breakdown(spending, FilterByPreference([Discover], "points"), month)) == 0.0
  {
    assert [Discover][1..] == [];
    assert KeepKind([Discover], "points") == [];
    NoEligibleCardEarnsNothing(Positive(spending), month);
  }
}
