/** The card records the reward calculator reads, with the defaults it
    substitutes for missing fields. */
module CardModel {

  datatype Option<+T> = None | Some(value: T) {
    function GetOr(default: T): T {
      match this
      case Some(v) => v
      case None => default
    }
  }

  /** The `rewards` record of a card. A missing `categories` or
      `rotating_schedule` behaves exactly like an empty one, so both are plain
      maps here; a missing `base_rate` is `None` and reads as 1. */
  datatype Rewards = Rewards(
    baseRate: Option<real>,
    categories: map<string, real>,
    rotatingSchedule: map<string, string>)

  /** A card as the calculator sees it. `kind` is the `type` field (absent:
      `None`), `annualFee` the `annual_fee` field (absent: `None`, reads as 0).
      A card without a `rewards` record is `Rewards(None, map[], map[])`. */
  datatype Card = Card(
    id: string,
    name: string,
    kind: Option<string>,
    rewards: Rewards,
    annualFee: Option<real>)

  const NoRewards: Rewards := Rewards(None, map[], map[])

  /** `card.get("rewards", {}).get("base_rate", 1)` */
  function BaseRate(card: Card): (r: real)
    ensures card.rewards.baseRate.None? ==> r == 1.0
    ensures card.rewards.baseRate.Some? ==> r == card.rewards.baseRate.value
  {
    card.rewards.baseRate.GetOr(1.0)
  }

  /** `card.get("annual_fee", 0)` */
  function AnnualFee(card: Card): (r: real)
    ensures card.annualFee.None? ==> r == 0.0
    ensures card.annualFee.Some? ==> r == card.annualFee.value
  {
    card.annualFee.GetOr(0.0)
  }

  /** `card.get("type") == "cashback"`: the rates of such a card are percentages. */
  predicate IsCashback(card: Card) {
    card.kind == Some("cashback")
  }

  /** Rates that are never negative: the precondition of the monotonicity
      and non-negativity results (the source does not validate rates). */
  predicate NonNegativeRates(card: Card) {
    && BaseRate(card) >= 0.0
    && forall key :: key in card.rewards.categories ==> card.rewards.categories[key] >= 0.0
  }

  /** One row of the per-category breakdown: the amount spent, the selected
      card (none when no card was eligible), the reward it earns and the
      reward per unit spent. */
  datatype Entry = Entry(
    category: string,
    amount: real,
    bestCard: Option<Card>,
    reward: real,
    rate: real)

  /** The row's rate is its reward per unit spent: rate times amount is the
      reward when something was spent, and the rate is 0 otherwise. */
  predicate RateMatchesReward(e: Entry) {
    && (e.amount > 0.0 ==> e.rate * e.amount == e.reward)
    && (e.amount <= 0.0 ==> e.rate == 0.0)
  }

  function Categories(breakdown: seq<Entry>): (cs: seq<string>)
    ensures |cs| == |breakdown|
    ensures forall i :: 0 <= i < |cs| ==> cs[i] == breakdown[i].category
  {
    if breakdown == [] then [] else Categories(breakdown[..|breakdown| - 1]) + [breakdown[|breakdown| - 1].category]
  }
}
