/** `optimize_spending`: filter the held cards by preference, pick the best
    card for every category with a positive amount, total the rewards and
    attach the recommendations. */
module Optimizer {
  import opened CardModel
  import opened Rates
  import opened Seqs
  import opened Selection
  import opened Recommendations

  /** The message of the result returned when the user holds no card. */
  const NoCardsMessage: string := "No credit cards found. Please add your cards first."

  /** The result of an optimisation: the guarded no-cards result, or the
      totals (before display rounding), the currency label, the breakdown in
      spending order and the recommendations. */
  datatype OptimizationResult =
    | NoCards(error: string)
    | Optimized(
        totalMonthly: real,
        totalAnnual: real,
        currency: string,
        breakdown: seq<Entry>,
        recommendations: seq<Recommendation>)
  {
    /** The `recommendations` key, present in both shapes. */
    function Recommendations(): seq<Recommendation> {
      match this
      case NoCards(_) => []
      case Optimized(_, _, _, _, recs) => recs
    }
  }

  /** "USD" for the cashback preference, "points" for any other. */
  function Currency(preference: string): (c: string)
    ensures preference == "cashback" <==> c == "USD"
    ensures preference != "cashback" <==> c == "points"
  {
    if preference == "cashback" then "USD" else "points"
  }

  /** The breakdown row for one category: the best eligible card, its reward
      and the reward per unit spent (0 for a zero amount). */
  function EntryFor(category: string, amount: real, eligible: seq<Card>, month: int): (e: Entry)
    ensures e.category == category && e.amount == amount
  {
    var choice := BestCard(eligible, category, amount, month);
    Entry(category, amount, choice.card, choice.reward, if amount > 0.0 then choice.rate else 0.0)
  }

  /** The row's rate is `reward / amount` when the amount is positive, and 0
      otherwise. */
  lemma EntryRateIsRewardPerUnit(category: string, amount: real, eligible: seq<Card>, month: int)
    ensures var e := EntryFor(category, amount, eligible, month);
      && RateMatchesReward(e)
      && (amount > 0.0 ==> e.rate == e.reward / amount)
  {
    ChoiceRewardIsAmountTimesRate(eligible, category, amount, month);
    RowOfChoice(EntryFor(category, amount, eligible, month), amount, BestCard(eligible, category, amount, month));
  }

  lemma RowOfChoice(e: Entry, amount: real, c: Choice)
    requires c.reward == amount * c.rate
    requires e.amount == amount && e.reward == c.reward
    requires e.rate == if amount > 0.0 then c.rate else 0.0
    ensures RateMatchesReward(e)
    ensures amount > 0.0 ==> e.rate == e.reward / amount
  {
    if e.amount > 0.0 {
      assert e.reward / e.amount == c.rate;
    }
  }

  /** The categories of a spending plan, in order. */
  function Keys(spending: seq<(string, real)>): (ks: seq<string>)
    ensures |ks| == |spending|
    ensures forall i :: 0 <= i < |spending| ==> ks[i] == spending[i].0
  {
    if spending == [] then [] else Keys(spending[..|spending| - 1]) + [spending[|spending| - 1].0]
  }

  /** The plan's entries with a positive amount, in plan order: the
      categories the loop visits. */
  function Positive(spending: seq<(string, real)>): (p: seq<(string, real)>)
    ensures forall k :: 0 <= k < |p| ==> p[k].1 > 0.0
  {
    if spending == [] then []
    else
      var last := spending[|spending| - 1];
      var rest := Positive(spending[..|spending| - 1]);
      if last.1 > 0.0 then rest + [last] else rest
  }

  /** Exactly the positive entries are kept, and their keys keep the plan's
      order. */
  lemma {:induction false} PositiveKeepsPlanOrder(spending: seq<(string, real)>)
    ensures forall x :: x in Positive(spending) ==> x in spending
    ensures forall i :: 0 <= i < |spending| && spending[i].1 > 0.0 ==> spending[i] in Positive(spending)
    ensures IsSubsequence(Keys(Positive(spending)), Keys(spending))
  {
    if spending == [] {
      SubsequenceReflexive(Keys(spending));
    } else {
      var init := spending[..|spending| - 1];
      var last := spending[|spending| - 1];
      var rest := Positive(init);
      var keep := last.1 > 0.0;
      PositiveKeepsPlanOrder(init);
      assert spending == init + [last];
      assert Keys(spending) == Keys(init) + [last.0];
      assert Keys(Positive(spending)) == if keep then Keys(rest) + [last.0] else Keys(rest);
      SubsequenceExtend(Keys(rest), Keys(init), last.0, keep);
      forall i | 0 <= i < |spending| && spending[i].1 > 0.0 ensures spending[i] in Positive(spending) {
        if i < |init| {
          assert spending[i] == init[i];
        }
      }
    }
  }

  /** One breakdown row per entry of `plan`. */
  function Rows(plan: seq<(string, real)>, eligible: seq<Card>, month: int): (b: seq<Entry>)
    ensures |b| == |plan|
    ensures forall k :: 0 <= k < |plan| ==> b[k] == EntryFor(plan[k].0, plan[k].1, eligible, month)
  {
    if plan == [] then []
    else
      var init := plan[..|plan| - 1];
      var (category, amount) := plan[|plan| - 1];
      var rows := Rows(init, eligible, month);
      assert forall k :: 0 <= k < |init| ==> plan[k] == init[k];
      rows + [EntryFor(category, amount, eligible, month)]
  }

  /** The breakdown: one row per category with a positive amount, in
      spending order. */
  function Breakdown(spending: seq<(string, real)>, eligible: seq<Card>, month: int): seq<Entry> {
    Rows(Positive(spending), eligible, month)
  }

  /** One more step of the loop adds at most the row of the next category. */
  lemma BreakdownStep(spending: seq<(string, real)>, i: nat, eligible: seq<Card>, month: int)
    requires i < |spending|
    ensures Breakdown(spending[..i + 1], eligible, month) ==
      Breakdown(spending[..i], eligible, month) +
      (if spending[i].1 > 0.0 then [EntryFor(spending[i].0, spending[i].1, eligible, month)] else [])
  {
    assert spending[..i + 1][..i] == spending[..i];
  }

  /** The keys of a dictionary: no category occurs twice. */
  predicate DistinctKeys(spending: seq<(string, real)>) {
    forall i, j :: 0 <= i < j < |spending| ==> spending[i].0 != spending[j].0
  }

  /** The breakdown's categories are those of the positive entries, in order. */
  lemma BreakdownCategories(spending: seq<(string, real)>, eligible: seq<Card>, month: int)
    ensures Categories(Breakdown(spending, eligible, month)) == Keys(Positive(spending))
  {
  }

  /** The row of one entry with a positive amount. */
  lemma RowOfPositiveEntry(spending: seq<(string, real)>, eligible: seq<Card>, month: int, i: nat) returns (k: nat)
    requires i < |spending| && spending[i].1 > 0.0
    ensures k < |Breakdown(spending, eligible, month)|
    ensures Breakdown(spending, eligible, month)[k].category == spending[i].0
    ensures Breakdown(spending, eligible, month)[k].amount == spending[i].1
  {
    var p := Positive(spending);
    PositiveKeepsPlanOrder(spending);
    assert spending[i] in p;
    k :| 0 <= k < |p| && p[k] == spending[i];
    RowsKeepPlan(p, eligible, month);
  }

  /** Every category with a positive amount has a row with that amount. */
  lemma PositiveEntriesHaveRows(spending: seq<(string, real)>, eligible: seq<Card>, month: int)
    ensures var b := Breakdown(spending, eligible, month);
      forall i :: 0 <= i < |spending| && spending[i].1 > 0.0 ==>
        exists k :: 0 <= k < |b| && b[k].category == spending[i].0 && b[k].amount == spending[i].1
  {
    var b := Breakdown(spending, eligible, month);
    forall i | 0 <= i < |spending| && spending[i].1 > 0.0
      ensures exists k :: 0 <= k < |b| && b[k].category == spending[i].0 && b[k].amount == spending[i].1
    {
      var k := RowOfPositiveEntry(spending, eligible, month, i);
    }
  }

  /** Every row comes from an entry of the plan with a positive amount. */
  lemma RowsComeFromPositiveEntries(spending: seq<(string, real)>, eligible: seq<Card>, month: int)
    ensures var b := Breakdown(spending, eligible, month);
      forall k :: 0 <= k < |b| ==> b[k].amount > 0.0 && (b[k].category, b[k].amount) in spending
  {
    var p := Positive(spending);
    var b := Breakdown(spending, eligible, month);
    PositiveKeepsPlanOrder(spending);
    RowsKeepPlan(p, eligible, month);
    forall k | 0 <= k < |b| ensures b[k].amount > 0.0 && (b[k].category, b[k].amount) in spending {
      assert (b[k].category, b[k].amount) == p[k] && p[k] in p;
    }
  }

  /** Every category with a positive amount appears in the breakdown, with
      that amount; every row comes from such a category; the rows keep the
      plan's order. */
  lemma BreakdownCoversPositiveAmounts(spending: seq<(string, real)>, eligible: seq<Card>, month: int)
    ensures var b := Breakdown(spending, eligible, month);
      && (forall i :: 0 <= i < |spending| && spending[i].1 > 0.0 ==>
            exists k :: 0 <= k < |b| && b[k].category == spending[i].0 && b[k].amount == spending[i].1)
      && (forall k :: 0 <= k < |b| ==> b[k].amount > 0.0 && (b[k].category, b[k].amount) in spending)
      && IsSubsequence(Categories(b), Keys(spending))
  {
    PositiveEntriesHaveRows(spending, eligible, month);
    RowsComeFromPositiveEntries(spending, eligible, month);
    BreakdownCategories(spending, eligible, month);
    PositiveKeepsPlanOrder(spending);
  }

  /** Each row carries the category and the amount of its plan entry. */
  lemma RowsKeepPlan(plan: seq<(string, real)>, eligible: seq<Card>, month: int)
    ensures |Rows(plan, eligible, month)| == |plan|
    ensures forall k :: 0 <= k < |plan| ==>
      Rows(plan, eligible, month)[k].category == plan[k].0 && Rows(plan, eligible, month)[k].amount == plan[k].1
  {
  }

  /** A plan without repeated keys lists no category twice among its
      positive entries. */
  lemma {:induction false} PositiveKeysDistinct(spending: seq<(string, real)>)
    requires DistinctKeys(spending)
    ensures NoRepeats(Keys(Positive(spending)))
  {
    if spending != [] {
      var init := spending[..|spending| - 1];
      var last := spending[|spending| - 1];
      assert DistinctKeys(init);
      PositiveKeysDistinct(init);
      var rest := Positive(init);
      if last.1 > 0.0 {
        assert Positive(spending) == rest + [last];
        assert Keys(rest + [last]) == Keys(rest) + [last.0];
        LastKeyIsNew(spending);
        NoRepeatsAppend(Keys(rest), last.0);
      }
    }
  }

  /** In a plan without repeated keys, the last key is not among the kept
      keys of the entries before it. */
  lemma LastKeyIsNew(spending: seq<(string, real)>)
    requires spending != [] && DistinctKeys(spending)
    ensures spending[|spending| - 1].0 !in Keys(Positive(spending[..|spending| - 1]))
  {
    var init := spending[..|spending| - 1];
    assert forall i :: 0 <= i < |init| ==> Keys(init)[i] != spending[|spending| - 1].0;
    PositiveKeepsPlanOrder(init);
    SubsequenceMembers(Keys(Positive(init)), Keys(init));
  }

  /** Every category spent on appears in the breakdown exactly once. */
  lemma BreakdownListsEachCategoryOnce(spending: seq<(string, real)>, eligible: seq<Card>, month: int)
    requires DistinctKeys(spending)
    ensures NoRepeats(Categories(Breakdown(spending, eligible, month)))
  {
    PositiveKeysDistinct(spending);
    BreakdownCategories(spending, eligible, month);
  }

  /** A plan with no positive amount yields no rows and a zero total. */
  lemma {:induction false} NothingSpentNothingEarned(spending: seq<(string, real)>, eligible: seq<Card>, month: int)
    requires forall i :: 0 <= i < |spending| ==> spending[i].1 <= 0.0
    ensures Breakdown(spending, eligible, month) == []
    ensures TotalReward(Breakdown(spending, eligible, month)) == 0.0
  {
    if spending != [] {
      NothingSpentNothingEarned(spending[..|spending| - 1], eligible, month);
    }
  }

  /** With no eligible card every row has no card and no reward, and the
      total is 0. */
  lemma {:induction false} NoEligibleCardEarnsNothing(plan: seq<(string, real)>, month: int)
    ensures forall k :: 0 <= k < |Rows(plan, [], month)| ==>
      Rows(plan, [], month)[k].bestCard == None &&
      Rows(plan, [], month)[k].reward == 0.0 &&
      Rows(plan, [], month)[k].rate == 0.0
    ensures TotalReward(Rows(plan, [], month)) == 0.0
  {
    if plan != [] {
      NoEligibleCardEarnsNothing(plan[..|plan| - 1], month);
    }
  }

  /** With non-negative rates every row's reward, and so the total, is
      never negative. */
  lemma {:induction false} RewardsNeverNegative(plan: seq<(string, real)>, eligible: seq<Card>, month: int)
    requires forall i :: 0 <= i < |eligible| ==> NonNegativeRates(eligible[i])
    requires forall i :: 0 <= i < |plan| ==> plan[i].1 >= 0.0
    ensures forall k :: 0 <= k < |Rows(plan, eligible, month)| ==> Rows(plan, eligible, month)[k].reward >= 0.0
    ensures forall k :: 0 <= k < |Rows(plan, eligible, month)| ==> Rows(plan, eligible, month)[k].rate >= 0.0
    ensures TotalReward(Rows(plan, eligible, month)) >= 0.0
  {
    if plan != [] {
      var (category, amount) := plan[|plan| - 1];
      RewardsNeverNegative(plan[..|plan| - 1], eligible, month);
      if eligible != [] {
        BaseRewardNonNegative(eligible[0], amount);
      }
      ChoiceRateNonNegative(eligible, category, amount, month);
    }
  }

  /** The body of the loop for one category with a positive amount: the
      selected card, its reward, and the reward per unit spent. */
  method OptimizeCategory(relevant: seq<Card>, category: string, amount: real, month: int)
    returns (entry: Entry)
    requires amount > 0.0
    ensures entry == EntryFor(category, amount, relevant, month)
  {
    var best, reward := FindBestCard(relevant, category, amount, month);
    entry := Entry(category, amount, best, reward, if amount > 0.0 then reward / amount else 0.0);
    EntryRateIsRewardPerUnit(category, amount, relevant, month);
  }

  /** The loop over the spending plan: one row per positive amount, in plan
      order, and the running total of their rewards. */
  method BreakdownLoop(relevant: seq<Card>, spending: seq<(string, real)>, month: int)
    returns (breakdown: seq<Entry>, total: real)
    ensures breakdown == Breakdown(spending, relevant, month)
    ensures total == TotalReward(breakdown)
  {
    breakdown, total := [], 0.0;
    var i := 0;
    assert spending[..0] == [];
    assert Breakdown([], relevant, month) == [];
    while i < |spending|
      invariant 0 <= i <= |spending|
      invariant breakdown == Breakdown(spending[..i], relevant, month)
      invariant total == TotalReward(breakdown)
    {
      var category := spending[i].0;
      var amount := spending[i].1;
      BreakdownStep(spending, i, relevant, month);
      if amount > 0.0 {
        var entry := OptimizeCategory(relevant, category, amount, month);
        TotalRewardAppend(breakdown, entry);
        breakdown := breakdown + [entry];
        total := total + entry.reward;
      }
      i := i + 1;
    }
    assert spending[..i] == spending;
  }

  /** What an optimisation returns: the no-cards result for an empty card
      list; otherwise the breakdown over the eligible cards, its total per
      month and per year, the currency label and the recommendations over
      every held card. */
  function OptimizationOf(userCards: seq<Card>, spending: seq<(string, real)>, preference: string, month: int)
    : OptimizationResult
  {
    if userCards == [] then NoCards(NoCardsMessage)
    else
      var b := Breakdown(spending, FilterByPreference(userCards, preference), month);
      Optimized(TotalReward(b), TotalReward(b) * 12.0, Currency(preference), b, RecommendationsSpec(b, userCards, month))
  }

  /** Without cards the result is the error message with no recommendations,
      whatever the spending; otherwise the monthly total is the sum of the
      breakdown's rewards, the annual total twelve times it, and the
      recommendations are built over every held card. */
  lemma OptimizationTotals(userCards: seq<Card>, spending: seq<(string, real)>, preference: string, month: int)
    ensures var res := OptimizationOf(userCards, spending, preference, month);
      && (userCards == [] ==> res == NoCards(NoCardsMessage) && res.Recommendations() == [])
      && (userCards != [] ==>
            && res.Optimized?
            && res.breakdown == Breakdown(spending, FilterByPreference(userCards, preference), month)
            && res.totalMonthly == TotalReward(res.breakdown)
            && res.totalAnnual == 12.0 * res.totalMonthly
            && res.currency == Currency(preference)
            && res.recommendations == RecommendationsSpec(res.breakdown, userCards, month))
  {
  }

  /** The orchestration loop: the no-cards guard, the preference filter, one
      row per positive amount with a running total, twelve months for the
      annual figure, then the recommendations over every held card. */
  method Optimize(userCards: seq<Card>, spending: seq<(string, real)>, preference: string, month: int)
    returns (res: OptimizationResult)
    ensures res == OptimizationOf(userCards, spending, preference, month)
  {
    if userCards == [] {
      return NoCards(NoCardsMessage);
    }
    var relevant := FilterByPreference(userCards, preference);
    var breakdown, total := BreakdownLoop(relevant, spending, month);
    var recs := GenerateRecommendations(breakdown, userCards, month);
    var monthly := total;
    var annual := total * 12.0;
    res := Optimized(monthly, annual, Currency(preference), breakdown, recs);
  }
}
