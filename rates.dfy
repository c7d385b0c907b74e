/** Rate resolution for one card, one spending category and one amount:
    direct key, then the first synonym from the fixed table, then the
    rotating 5x bonus of the current quarter, then the base rate. */
module Rates {
  import opened CardModel
  import Text

  /** The fixed synonym table: a user-facing category and, in order, the
      issuer-side labels treated as equal to it. */
  const CategoryMapping: map<string, seq<string>> := map[
    "groceries" := ["groceries", "grocery_stores", "supermarkets"],
    "gas" := ["gas", "gas_stations", "fuel"],
    "restaurants" := ["dining", "restaurants", "food"],
    "travel" := ["travel", "airlines", "hotels", "car_rental"],
    "online_shopping" := ["online", "e_commerce", "amazon"],
    "department_stores" := ["department_stores", "retail"],
    "utilities" := ["utilities", "bills"],
    "streaming_services" := ["streaming", "entertainment"],
    "phone_bill" := ["phone", "telecommunications"]
  ]

  /** The key under which a card stores its rotating bonus rate. */
  const RotatingKey: string := "rotating_5x"

  /** `category_mapping.get(category, [category])` */
  function Variations(category: string): (aliases: seq<string>)
    ensures category in CategoryMapping ==> aliases == CategoryMapping[category]
    ensures category !in CategoryMapping ==> aliases == [category]
  {
    if category in CategoryMapping then CategoryMapping[category] else [category]
  }

  const QuarterNames: seq<string> := ["Q1", "Q2", "Q3", "Q4"]

  /** The quarter label of a calendar month (the source reads the month from
      the clock; here it is a parameter). */
  function Quarter(month: int): (q: string)
    ensures q in QuarterNames
    ensures 1 <= month <= 12 ==> q == QuarterNames[(month - 1) / 3]
  {
    if month <= 3 then "Q1"
    else if month <= 6 then "Q2"
    else if month <= 9 then "Q3"
    else "Q4"
  }

  /** Position of a quarter label in calendar order. */
  function QuarterRank(q: string): (k: nat)
    requires q in QuarterNames
    ensures k < |QuarterNames| && QuarterNames[k] == q
  {
    if q == "Q1" then 0 else if q == "Q2" then 1 else if q == "Q3" then 2 else 3
  }

  /** Later months never map to earlier quarters. */
  lemma {:induction false} QuarterMonotone(m1: int, m2: int)
    requires m1 <= m2
    ensures QuarterRank(Quarter(m1)) <= QuarterRank(Quarter(m2))
  {
  }

  /** Index of the first alias that is a key of `categories`; `|aliases|`
      when there is none. */
  function FirstPresent(aliases: seq<string>, categories: map<string, real>): (k: nat)
    ensures k <= |aliases|
    ensures k < |aliases| ==> aliases[k] in categories
    ensures forall j :: 0 <= j < k ==> aliases[j] !in categories
  {
    if aliases == [] then 0
    else if aliases[0] in categories then 0
    else 1 + FirstPresent(aliases[1..], categories)
  }

  /** `any(cat in text for cat in aliases)` */
  function AnyOccurs(aliases: seq<string>, text: string): (b: bool)
    ensures b <==> exists i :: 0 <= i < |aliases| && Text.Contains(text, aliases[i])
  {
    if aliases == [] then false
    else Text.Contains(text, aliases[0]) || AnyOccurs(aliases[1..], text)
  }

  /** The rotating bonus applies: the card has a `rotating_5x` rate, its
      schedule has an entry for the current quarter, and that entry, lower-cased,
      contains one of the category's aliases. */
  predicate RotatingApplies(card: Card, category: string, month: int) {
    var cats := card.rewards.categories;
    var schedule := card.rewards.rotatingSchedule;
    && RotatingKey in cats
    && Quarter(month) in schedule
    && AnyOccurs(Variations(category), Text.Lower(schedule[Quarter(month)]))
  }

  /** Which rule supplied the rate, and the rate itself. */
  datatype Resolution =
    | Direct(rate: real)
    | Synonym(alias: string, rate: real)
    | Rotating(rate: real)
    | Base(rate: real)

  /** The rate rules in the order the source tries them; the first that
      applies wins. */
  function Resolve(card: Card, category: string, month: int): Resolution {
    var cats := card.rewards.categories;
    if category in cats then Direct(cats[category])
    else
      var aliases := Variations(category);
      var k := FirstPresent(aliases, cats);
      if k < |aliases| then Synonym(aliases[k], cats[aliases[k]])
      else if RotatingApplies(card, category, month) then Rotating(cats[RotatingKey])
      else Base(BaseRate(card))
  }

  /** The precedence of the rules: a direct key wins; otherwise the first
      synonym present; otherwise the rotating bonus when this quarter's
      schedule mentions an alias; otherwise the base rate. */
  lemma ResolvePrecedence(card: Card, category: string, month: int)
    ensures var r := Resolve(card, category, month);
      && (r.Direct? <==> category in card.rewards.categories)
      && (r.Direct? ==> r.rate == card.rewards.categories[category])
      && (r.Synonym? <==>
            category !in card.rewards.categories &&
            exists i :: 0 <= i < |Variations(category)| && Variations(category)[i] in card.rewards.categories)
      && (r.Synonym? ==>
            exists k :: 0 <= k < |Variations(category)| &&
              r.alias == Variations(category)[k] &&
              r.alias in card.rewards.categories &&
              r.rate == card.rewards.categories[r.alias] &&
              forall j :: 0 <= j < k ==> Variations(category)[j] !in card.rewards.categories)
      && (r.Rotating? <==>
            category !in card.rewards.categories &&
            (forall a :: a in Variations(category) ==> a !in card.rewards.categories) &&
            RotatingApplies(card, category, month))
      && (r.Rotating? ==> r.rate == card.rewards.categories[RotatingKey])
      && (r.Base? ==> r.rate == BaseRate(card))
  {
    var cats := card.rewards.categories;
    if category !in cats {
      var aliases := Variations(category);
      var k := FirstPresent(aliases, cats);
      if k < |aliases| {
        assert aliases[k] in cats;
      } else {
        assert forall a :: a in aliases ==> a !in cats;
      }
    }
  }

  /** The reward per unit spent: the resolved rate, divided by 100 for a
      cashback card (a percentage) and taken as it is for any other card (a
      multiplier). */
  function UnitRate(card: Card, category: string, month: int): real {
    var rate := Resolve(card, category, month).rate;
    if IsCashback(card) then rate / 100.0 else rate
  }

  /** The reward one card earns on `amount` spent in `category`. */
  function RewardFor(card: Card, category: string, amount: real, month: int): real {
    amount * UnitRate(card, category, month)
  }

  /** The base rate per unit spent, converted the same way. */
  function BaseUnitRate(card: Card): real {
    if IsCashback(card) then BaseRate(card) / 100.0 else BaseRate(card)
  }

  /** The reward at the card's base rate. */
  function BaseReward(card: Card, amount: real): real {
    amount * BaseUnitRate(card)
  }

  /** Unit conversion: a cashback card earns the amount times its resolved
      rate read as a percentage, any other card the amount times the rate;
      the base-rate reward converts the same way. */
  lemma UnitConversion(card: Card, category: string, amount: real, month: int)
    ensures IsCashback(card) ==>
      RewardFor(card, category, amount, month) == amount * (Resolve(card, category, month).rate / 100.0)
    ensures !IsCashback(card) ==>
      RewardFor(card, category, amount, month) == amount * Resolve(card, category, month).rate
    ensures IsCashback(card) ==> BaseReward(card, amount) == amount * (BaseRate(card) / 100.0)
    ensures !IsCashback(card) ==> BaseReward(card, amount) == amount * BaseRate(card)
  {
  }

  /** When no rule but the last applies, the reward is the base-rate reward. */
  lemma FallbackIsBaseReward(card: Card, category: string, amount: real, month: int)
    requires Resolve(card, category, month).Base?
    ensures UnitRate(card, category, month) == BaseUnitRate(card)
    ensures RewardFor(card, category, amount, month) == BaseReward(card, amount)
  {
    ResolvePrecedence(card, category, month);
  }

  /** `reward / amount` recovers the per-unit rate whatever the amount. */
  lemma RewardPerUnit(card: Card, category: string, amount: real, month: int)
    requires amount != 0.0
    ensures RewardFor(card, category, amount, month) / amount == UnitRate(card, category, month)
  {
    var u := UnitRate(card, category, month);
    assert (amount * u) / amount == u;
  }

  /** The resolved rate is one of the card's own rates. */
  lemma ResolvedRateNonNegative(card: Card, category: string, month: int)
    requires NonNegativeRates(card)
    ensures Resolve(card, category, month).rate >= 0.0
    ensures UnitRate(card, category, month) >= 0.0
  {
    ResolvePrecedence(card, category, month);
    var r := Resolve(card, category, month);
    match r
    case Direct(_) =>
    case Synonym(a, _) =>
    case Rotating(_) =>
    case Base(_) =>
  }

  /** With non-negative rates and amount the reward is never negative. */
  lemma RewardNonNegative(card: Card, category: string, amount: real, month: int)
    requires NonNegativeRates(card) && amount >= 0.0
    ensures RewardFor(card, category, amount, month) >= 0.0
  {
    ResolvedRateNonNegative(card, category, month);
  }

  /** With non-negative rates the reward never decreases as the amount grows. */
  lemma RewardMonotone(card: Card, category: string, a1: real, a2: real, month: int)
    requires NonNegativeRates(card) && a1 <= a2
    ensures RewardFor(card, category, a1, month) <= RewardFor(card, category, a2, month)
  {
    ResolvedRateNonNegative(card, category, month);
    var u := UnitRate(card, category, month);
    assert a2 * u - a1 * u == (a2 - a1) * u;
  }

  /** The base-rate reward, too, is never negative. */
  lemma BaseRewardNonNegative(card: Card, amount: real)
    requires NonNegativeRates(card) && amount >= 0.0
    ensures BaseReward(card, amount) >= 0.0
  {
  }
}
