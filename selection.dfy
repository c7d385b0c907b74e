/** Which held cards are eligible under a preference, and which eligible card
    earns the most in one category. */
module Selection {
  import opened CardModel
  import opened Rates
  import opened Seqs

  /** The cards whose `type` field is `kind`, in their original order. */
  function KeepKind(cards: seq<Card>, kind: string): (r: seq<Card>)
    ensures forall i :: 0 <= i < |r| ==> r[i].kind == Some(kind)
  {
    if cards == [] then []
    else
      var rest := KeepKind(cards[1..], kind);
      if cards[0].kind == Some(kind) then [cards[0]] + rest else rest
  }

  /** Every card of that type is kept as often as it occurs, no other card is
      kept, and the kept cards stay in order. */
  lemma {:induction false} KeepKindSelectsExactly(cards: seq<Card>, kind: string)
    ensures forall c :: multiset(KeepKind(cards, kind))[c] == if c.kind == Some(kind) then multiset(cards)[c] else 0
    ensures IsSubsequence(KeepKind(cards, kind), cards)
  {
    if cards != [] {
      var rest := KeepKind(cards[1..], kind);
      KeepKindSelectsExactly(cards[1..], kind);
      assert cards == [cards[0]] + cards[1..];
      if cards[0].kind != Some(kind) {
        assert rest != [] ==> rest[0] != cards[0];
      }
    }
  }

  /** `_filter_cards_by_preference`: "cashback" and "points" keep the cards
      of that type only; any other preference keeps every card. */
  function FilterByPreference(cards: seq<Card>, preference: string): (r: seq<Card>)
    ensures preference == "cashback" || preference == "points" ==>
      forall i :: 0 <= i < |r| ==> r[i].kind == Some(preference)
    ensures preference != "cashback" && preference != "points" ==> r == cards
  {
    if preference == "cashback" then KeepKind(cards, "cashback")
    else if preference == "points" then KeepKind(cards, "points")
    else cards
  }

  /** Under "cashback" or "points" exactly the cards of that type are kept, as
      often as they occur; under any preference the eligible cards keep the
      order of the held cards. */
  lemma FilterByPreferenceSelectsExactly(cards: seq<Card>, preference: string)
    ensures preference == "cashback" || preference == "points" ==>
      forall c :: multiset(FilterByPreference(cards, preference))[c] ==
        if c.kind == Some(preference) then multiset(cards)[c] else 0
    ensures IsSubsequence(FilterByPreference(cards, preference), cards)
  {
    if preference == "cashback" || preference == "points" {
      KeepKindSelectsExactly(cards, preference);
    } else {
      SubsequenceReflexive(cards);
    }
  }

  /** A selected card (none when there was nothing to choose from), its
      reward and its reward per unit spent. */
  datatype Choice = Choice(card: Option<Card>, reward: real, rate: real)

  /** The card the selection loop holds after scanning `cards`: a card
      replaces the one held only when its reward is strictly larger, and
      nothing is held until some reward exceeds 0. */
  function RunningBest(cards: seq<Card>, category: string, amount: real, month: int): (r: Choice)
    ensures r.card == None ==> r.reward == 0.0 && r.rate == 0.0
    ensures r.card != None ==> r.reward > 0.0
  {
    if cards == [] then Choice(None, 0.0, 0.0)
    else
      var held := RunningBest(cards[..|cards| - 1], category, amount, month);
      var last := cards[|cards| - 1];
      var reward := RewardFor(last, category, amount, month);
      if reward > held.reward then Choice(Some(last), reward, UnitRate(last, category, month)) else held
  }

  /** No card's reward exceeds the reward the loop holds. */
  lemma {:induction false} RunningBestIsUpperBound(cards: seq<Card>, category: string, amount: real, month: int)
    ensures forall i :: 0 <= i < |cards| ==>
      RewardFor(cards[i], category, amount, month) <= RunningBest(cards, category, amount, month).reward
  {
    if cards != [] {
      var init := cards[..|cards| - 1];
      RunningBestIsUpperBound(init, category, amount, month);
      assert forall i :: 0 <= i < |init| ==> cards[i] == init[i];
    }
  }

  /** When the last card beats the reward held so far, every earlier card
      earns strictly less than it. */
  lemma TakenCardBeatsEarlierCards(cards: seq<Card>, category: string, amount: real, month: int)
    requires cards != []
    requires RewardFor(cards[|cards| - 1], category, amount, month) >
      RunningBest(cards[..|cards| - 1], category, amount, month).reward
    ensures forall i :: 0 <= i < |cards| - 1 ==>
      RewardFor(cards[i], category, amount, month) < RewardFor(cards[|cards| - 1], category, amount, month)
  {
    var init := cards[..|cards| - 1];
    RunningBestIsUpperBound(init, category, amount, month);
    assert forall i :: 0 <= i < |init| ==> cards[i] == init[i];
  }

  /** A held card is a card of the list, with its own reward and rate, and
      every card before it earns strictly less. */
  lemma {:induction false} RunningBestIsFirst(cards: seq<Card>, category: string, amount: real, month: int)
    ensures var r := RunningBest(cards, category, amount, month);
      r.card != None ==>
        exists k :: 0 <= k < |cards| && (
          r.card == Some(cards[k])
          && r.reward == RewardFor(cards[k], category, amount, month)
          && r.rate == UnitRate(cards[k], category, month)
          && forall i :: 0 <= i < k ==> RewardFor(cards[i], category, amount, month) < r.reward)
  {
    if cards != [] {
      var init := cards[..|cards| - 1];
      var n := |cards| - 1;
      var held := RunningBest(init, category, amount, month);
      if RewardFor(cards[n], category, amount, month) > held.reward {
        TakenCardBeatsEarlierCards(cards, category, amount, month);
      } else if held.card != None {
        RunningBestIsFirst(init, category, amount, month);
        var k :| 0 <= k < n && held.card == Some(init[k]) &&
          held.reward == RewardFor(init[k], category, amount, month) &&
          held.rate == UnitRate(init[k], category, month) &&
          (forall i :: 0 <= i < k ==> RewardFor(init[i], category, amount, month) < held.reward);
        assert forall i :: 0 <= i < k ==> cards[i] == init[i];
        assert cards[k] == init[k];
      }
    }
  }

  /** The loop holds the first card with the largest reward, provided that
      reward is positive, and holds nothing when no reward is. */
  lemma RunningBestIsFirstMaximum(cards: seq<Card>, category: string, amount: real, month: int)
    ensures var r := RunningBest(cards, category, amount, month);
      && (r.card == None <==> forall i :: 0 <= i < |cards| ==> RewardFor(cards[i], category, amount, month) <= 0.0)
      && (r.card != None ==>
            exists k :: 0 <= k < |cards| && (
              r.card == Some(cards[k])
              && r.reward == RewardFor(cards[k], category, amount, month)
              && r.rate == UnitRate(cards[k], category, month)
              && (forall i :: 0 <= i < |cards| ==> RewardFor(cards[i], category, amount, month) <= r.reward)
              && (forall i :: 0 <= i < k ==> RewardFor(cards[i], category, amount, month) < r.reward)))
  {
    RunningBestIsUpperBound(cards, category, amount, month);
    RunningBestIsFirst(cards, category, amount, month);
  }

  /** A held card is held with its own reward and its own per-unit rate. */
  lemma RunningBestHoldsOwnRates(cards: seq<Card>, category: string, amount: real, month: int)
    ensures var r := RunningBest(cards, category, amount, month);
      r.card.Some? ==>
        r.reward == RewardFor(r.card.value, category, amount, month) && r.rate == UnitRate(r.card.value, category, month)
  {
    RunningBestIsFirst(cards, category, amount, month);
  }

  /** A reward and a rate taken from the same card agree: the reward is the
      amount times the rate. */
  lemma RewardIsAmountTimesUnitRate(card: Card, category: string, amount: real, month: int, reward: real, rate: real)
    requires reward == RewardFor(card, category, amount, month) && rate == UnitRate(card, category, month)
    ensures reward == amount * rate
  {
  }

  /** The reward the loop holds is the amount times the rate it holds. */
  lemma RunningBestRewardIsAmountTimesRate(cards: seq<Card>, category: string, amount: real, month: int)
    ensures RunningBest(cards, category, amount, month).reward == amount * RunningBest(cards, category, amount, month).rate
  {
    var r := RunningBest(cards, category, amount, month);
    if r.card.Some? {
      RunningBestHoldsOwnRates(cards, category, amount, month);
      RewardIsAmountTimesUnitRate(r.card.value, category, amount, month, r.reward, r.rate);
    }
  }

  /** `_find_best_card_for_category` as a function: the card the loop holds,
      or, when it holds none, the first card at its base rate; with no cards,
      nothing and 0. */
  function BestCard(cards: seq<Card>, category: string, amount: real, month: int): (r: Choice)
    ensures cards == [] ==> r == Choice(None, 0.0, 0.0)
    ensures cards != [] ==> r.card.Some?
  {
    var held := RunningBest(cards, category, amount, month);
    if held.card == None && cards != [] then
      Choice(Some(cards[0]), BaseReward(cards[0], amount), BaseUnitRate(cards[0]))
    else held
  }

  /** The selected card is the first with the largest reward when some reward
      is positive; otherwise it is the first card, at its base rate. */
  lemma BestCardIsFirstMaximum(cards: seq<Card>, category: string, amount: real, month: int)
    ensures var r := BestCard(cards, category, amount, month);
      && ((exists i :: 0 <= i < |cards| && RewardFor(cards[i], category, amount, month) > 0.0) ==>
            exists k :: 0 <= k < |cards| && (
              r.card == Some(cards[k])
              && r.reward == RewardFor(cards[k], category, amount, month)
              && r.rate == UnitRate(cards[k], category, month)
              && (forall i :: 0 <= i < |cards| ==> RewardFor(cards[i], category, amount, month) <= r.reward)
              && (forall i :: 0 <= i < k ==> RewardFor(cards[i], category, amount, month) < r.reward)))
      && (cards != [] && (forall i :: 0 <= i < |cards| ==> RewardFor(cards[i], category, amount, month) <= 0.0) ==>
            r == Choice(Some(cards[0]), BaseReward(cards[0], amount), BaseUnitRate(cards[0])))
  {
    RunningBestIsFirstMaximum(cards, category, amount, month);
  }

  /** The selected reward is the amount times the selected per-unit rate. */
  lemma ChoiceRewardIsAmountTimesRate(cards: seq<Card>, category: string, amount: real, month: int)
    ensures BestCard(cards, category, amount, month).reward == amount * BestCard(cards, category, amount, month).rate
  {
    RunningBestRewardIsAmountTimesRate(cards, category, amount, month);
  }

  /** With non-negative rates on every card the selected per-unit rate is
      never negative. */
  lemma ChoiceRateNonNegative(cards: seq<Card>, category: string, amount: real, month: int)
    requires forall i :: 0 <= i < |cards| ==> NonNegativeRates(cards[i])
    ensures BestCard(cards, category, amount, month).rate >= 0.0
  {
    var held := RunningBest(cards, category, amount, month);
    if held.card.Some? {
      RunningBestIsFirst(cards, category, amount, month);
      var k :| 0 <= k < |cards| && held.card == Some(cards[k]) &&
        held.reward == RewardFor(cards[k], category, amount, month) &&
        held.rate == UnitRate(cards[k], category, month) &&
        (forall i :: 0 <= i < k ==> RewardFor(cards[i], category, amount, month) < held.reward);
      ResolvedRateNonNegative(cards[k], category, month);
    }
  }

  /** The selection loop: keep the card whose reward strictly exceeds the best
      so far (starting from 0), then fall back to the first card. */
  method FindBestCard(cards: seq<Card>, category: string, amount: real, month: int)
    returns (best: Option<Card>, maxReward: real)
    ensures best == BestCard(cards, category, amount, month).card
    ensures maxReward == BestCard(cards, category, amount, month).reward
  {
    best, maxReward := None, 0.0;
    var i := 0;
    while i < |cards|
      invariant 0 <= i <= |cards|
      invariant best == RunningBest(cards[..i], category, amount, month).card
      invariant maxReward == RunningBest(cards[..i], category, amount, month).reward
    {
      var reward := RewardFor(cards[i], category, amount, month);
      if reward > maxReward {
        maxReward := reward;
        best := Some(cards[i]);
      }
      assert cards[..i + 1][..i] == cards[..i];
      i := i + 1;
    }
    assert cards[..i] == cards;
    if best == None && |cards| > 0 {
      best := Some(cards[0]);
      maxReward := BaseReward(cards[0], amount);
    }
  }
}
