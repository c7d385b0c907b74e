/** The advisory entries attached to an optimisation: under-optimised
    categories, a fee-bearing card that pays for itself, the quarterly
    rotating reminder and the sign-up bonus nudge. */
module Recommendations {
  import opened CardModel
  import opened Rates
  import opened Seqs

  datatype Priority = High | Medium | Low

  /** A recommendation by its `type`, with the data its text is built from. */
  datatype Recommendation =
    | MissingCategories(categories: seq<string>)
    | AnnualFeeCard(cardName: string, netBenefit: real, fee: real)
    | RotatingReminder(quarter: string)
    | SignupBonus

  /** The four values of a recommendation's `type` field. */
  datatype RecType = MissingCategoriesType | AnnualFeeType | RotatingType | SignupBonusType {
    /** The `type` field as the source spells it. */
    function Name(): string {
      match this
      case MissingCategoriesType => "missing_categories"
      case AnnualFeeType => "annual_fee"
      case RotatingType => "rotating"
      case SignupBonusType => "signup_bonus"
    }
  }

  /** Distinct kinds have distinct `type` strings, so counting recommendations
      by kind is counting them by their `type` field. */
  lemma TypeNamesDistinct(a: RecType, b: RecType)
    ensures a.Name() == b.Name() <==> a == b
  {
  }

  /** The `type` field of a recommendation. */
  function TypeOf(rec: Recommendation): RecType {
    match rec
    case MissingCategories(_) => MissingCategoriesType
    case AnnualFeeCard(_, _, _) => AnnualFeeType
    case RotatingReminder(_) => RotatingType
    case SignupBonus => SignupBonusType
  }

  /** The `priority` field of a recommendation. */
  function PriorityOf(rec: Recommendation): Priority {
    match rec
    case MissingCategories(_) => High
    case AnnualFeeCard(_, _, _) => Medium
    case RotatingReminder(_) => Low
    case SignupBonus => Low
  }

  /** High before medium before low. */
  function Urgency(p: Priority): nat {
    match p
    case High => 0
    case Medium => 1
    case Low => 2
  }

  /** Position of a recommendation kind in the order they are emitted. */
  function Rank(rec: Recommendation): nat {
    match rec
    case MissingCategories(_) => 0
    case AnnualFeeCard(_, _, _) => 1
    case RotatingReminder(_) => 2
    case SignupBonus => 3
  }

  // ---------------------------------------------------------------------
  // Missing high-reward categories

  /** The reward per unit `card` would earn on the breakdown row `e`. */
  function PotentialRate(card: Card, e: Entry, month: int): real {
    if e.amount > 0.0 then RewardFor(card, e.category, e.amount, month) / e.amount else 0.0
  }

  /** Some card beats the achieved rate of `e` by more than half. */
  predicate Flagged(e: Entry, allCards: seq<Card>, month: int) {
    exists j :: 0 <= j < |allCards| && PotentialRate(allCards[j], e, month) > e.rate * 1.5
  }

  /** For a row with a positive amount, being flagged means that some card's
      per-unit rate in that category is more than 1.5 times the achieved rate. */
  lemma FlaggedByUnitRate(e: Entry, allCards: seq<Card>, month: int)
    requires e.amount > 0.0
    ensures Flagged(e, allCards, month) <==>
      exists j :: 0 <= j < |allCards| && UnitRate(allCards[j], e.category, month) > e.rate * 1.5
  {
    forall j | 0 <= j < |allCards|
      ensures PotentialRate(allCards[j], e, month) == UnitRate(allCards[j], e.category, month)
    {
      RewardPerUnit(allCards[j], e.category, e.amount, month);
    }
  }

  /** No string occurs twice. */
  predicate NoRepeats(s: seq<string>) {
    forall i, j :: 0 <= i < j < |s| ==> s[i] != s[j]
  }

  /** Appending a new element keeps a sequence free of repeats. */
  lemma NoRepeatsAppend(s: seq<string>, x: string)
    requires NoRepeats(s) && x !in s
    ensures NoRepeats(s + [x])
  {
    var r := s + [x];
    forall i, j | 0 <= i < j < |r| ensures r[i] != r[j] {
      assert r[i] == s[i] && s[i] in s;
      if j < |s| {
        assert r[j] == s[j];
      }
    }
  }

  /** The categories of the flagged rows, in breakdown order. */
  function MissingSpec(breakdown: seq<Entry>, allCards: seq<Card>, month: int): (r: seq<string>)
    ensures forall c :: c in r <==> exists i :: 0 <= i < |breakdown| && breakdown[i].category == c && Flagged(breakdown[i], allCards, month)
    ensures IsSubsequence(r, Categories(breakdown))
  {
    if breakdown == [] then []
    else
      var init := breakdown[..|breakdown| - 1];
      var e := breakdown[|breakdown| - 1];
      var rest := MissingSpec(init, allCards, month);
      assert Categories(breakdown) == Categories(init) + [e.category];
      SubsequenceExtend(rest, Categories(init), e.category, Flagged(e, allCards, month));
      if Flagged(e, allCards, month) then rest + [e.category] else rest
  }

  /** Each flagged category is listed once when the breakdown has no repeated
      category. */
  lemma {:induction false} MissingListedOnce(breakdown: seq<Entry>, allCards: seq<Card>, month: int)
    requires NoRepeats(Categories(breakdown))
    ensures NoRepeats(MissingSpec(breakdown, allCards, month))
  {
    if breakdown != [] {
      var init := breakdown[..|breakdown| - 1];
      var e := breakdown[|breakdown| - 1];
      assert Categories(breakdown) == Categories(init) + [e.category];
      assert NoRepeats(Categories(init)) by {
        forall i, j | 0 <= i < j < |init| ensures Categories(init)[i] != Categories(init)[j] {
          assert Categories(init)[i] == Categories(breakdown)[i];
          assert Categories(init)[j] == Categories(breakdown)[j];
        }
      }
      MissingListedOnce(init, allCards, month);
      var rest := MissingSpec(init, allCards, month);
      assert e.category !in rest;
      var r := MissingSpec(breakdown, allCards, month);
      if Flagged(e, allCards, month) {
        NoRepeatsAppend(rest, e.category);
      }
    }
  }

  /** The inner scan of `_find_missing_high_reward_categories`: walk the
      cards and stop at the first one that beats the row's rate by half. */
  method RowFlagged(e: Entry, allCards: seq<Card>, month: int) returns (found: bool)
    ensures found == Flagged(e, allCards, month)
  {
    found := false;
    var j := 0;
    while j < |allCards|
      invariant 0 <= j <= |allCards|
      invariant forall k :: 0 <= k < j ==> PotentialRate(allCards[k], e, month) <= e.rate * 1.5
    {
      var potentialReward := RewardFor(allCards[j], e.category, e.amount, month);
      var potentialRate := if e.amount > 0.0 then potentialReward / e.amount else 0.0;
      if potentialRate > e.rate * 1.5 {
        return true;
      }
      j := j + 1;
    }
  }

  /** `_find_missing_high_reward_categories`: the categories of the rows
      some card would serve at more than 1.5 times the achieved rate. */
  method FindMissingCategories(breakdown: seq<Entry>, allCards: seq<Card>, month: int)
    returns (missing: seq<string>)
    ensures missing == MissingSpec(breakdown, allCards, month)
  {
    missing := [];
    var i := 0;
    while i < |breakdown|
      invariant 0 <= i <= |breakdown|
      invariant missing == MissingSpec(breakdown[..i], allCards, month)
    {
      var found := RowFlagged(breakdown[i], allCards, month);
      if found {
        missing := missing + [breakdown[i].category];
      }
      assert breakdown[..i + 1][..i] == breakdown[..i];
      i := i + 1;
    }
    assert breakdown[..i] == breakdown;
  }

  // ---------------------------------------------------------------------
  // Annual-fee break-even

  /** The annual reward the current choices earn: the sum of each row's reward times 12. */
  function CurrentAnnual(breakdown: seq<Entry>): real {
    if breakdown == [] then 0.0
    else CurrentAnnual(breakdown[..|breakdown| - 1]) + breakdown[|breakdown| - 1].reward * 12.0
  }

  /** The sum of the breakdown's rewards. */
  function TotalReward(breakdown: seq<Entry>): real {
    if breakdown == [] then 0.0
    else TotalReward(breakdown[..|breakdown| - 1]) + breakdown[|breakdown| - 1].reward
  }

  /** Adding a row adds its reward to the total. */
  lemma TotalRewardAppend(breakdown: seq<Entry>, e: Entry)
    ensures TotalReward(breakdown + [e]) == TotalReward(breakdown) + e.reward
  {
    assert (breakdown + [e])[..|breakdown|] == breakdown;
  }

  /** Summing rewards times 12 is twelve times the summed rewards. */
  lemma {:induction false} CurrentAnnualIsTwelveTimesTotal(breakdown: seq<Entry>)
    ensures CurrentAnnual(breakdown) == 12.0 * TotalReward(breakdown)
  {
    if breakdown != [] {
      CurrentAnnualIsTwelveTimesTotal(breakdown[..|breakdown| - 1]);
    }
  }

  /** The monthly reward `card` alone would earn over every row. */
  function Potential(card: Card, breakdown: seq<Entry>, month: int): real {
    if breakdown == [] then 0.0
    else
      var e := breakdown[|breakdown| - 1];
      Potential(card, breakdown[..|breakdown| - 1], month) + RewardFor(card, e.category, e.amount, month)
  }

  /** What switching everything to `card` would gain per year, after its fee. */
  function NetBenefit(card: Card, breakdown: seq<Entry>, month: int): real {
    Potential(card, breakdown, month) * 12.0 - CurrentAnnual(breakdown) - AnnualFee(card)
  }

  /** A fee-bearing card that gains more than 100 a year net of its fee. */
  predicate WorthTheFee(card: Card, breakdown: seq<Entry>, month: int) {
    AnnualFee(card) > 0.0 && NetBenefit(card, breakdown, month) > 100.0
  }

  /** The recommendation for the first card worth its fee, if any. */
  function FeeSpec(breakdown: seq<Entry>, allCards: seq<Card>, month: int): (r: Option<Recommendation>)
    ensures r.None? <==> forall j :: 0 <= j < |allCards| ==> !WorthTheFee(allCards[j], breakdown, month)
    ensures r.Some? ==> exists k :: (0 <= k < |allCards| &&
      WorthTheFee(allCards[k], breakdown, month) &&
      (forall j :: 0 <= j < k ==> !WorthTheFee(allCards[j], breakdown, month)) &&
      r.value == AnnualFeeCard(allCards[k].name, NetBenefit(allCards[k], breakdown, month), AnnualFee(allCards[k])))
  {
    if allCards == [] then None
    else if WorthTheFee(allCards[0], breakdown, month) then
      Some(AnnualFeeCard(allCards[0].name, NetBenefit(allCards[0], breakdown, month), AnnualFee(allCards[0])))
    else
      var r := FeeSpec(breakdown, allCards[1..], month);
      assert forall j :: 1 <= j < |allCards| ==> allCards[j] == allCards[1..][j - 1];
      r
  }

  /** The first card worth its fee is the one recommended. */
  lemma FeeSpecFirst(breakdown: seq<Entry>, allCards: seq<Card>, month: int, i: nat)
    requires i < |allCards| && WorthTheFee(allCards[i], breakdown, month)
    requires forall j :: 0 <= j < i ==> !WorthTheFee(allCards[j], breakdown, month)
    ensures FeeSpec(breakdown, allCards, month) ==
      Some(AnnualFeeCard(allCards[i].name, NetBenefit(allCards[i], breakdown, month), AnnualFee(allCards[i])))
  {
    var r := FeeSpec(breakdown, allCards, month);
    var k :| 0 <= k < |allCards| && WorthTheFee(allCards[k], breakdown, month) &&
      (forall j :: 0 <= j < k ==> !WorthTheFee(allCards[j], breakdown, month)) &&
      r.value == AnnualFeeCard(allCards[k].name, NetBenefit(allCards[k], breakdown, month), AnnualFee(allCards[k]));
    assert !(k < i) && !(i < k);
  }

  /** The inner sum of `_analyze_annual_fees`: what `card` would earn over
      every row of the breakdown. */
  method PotentialOf(card: Card, breakdown: seq<Entry>, month: int) returns (potential: real)
    ensures potential == Potential(card, breakdown, month)
  {
    potential := 0.0;
    var j := 0;
    while j < |breakdown|
      invariant 0 <= j <= |breakdown|
      invariant potential == Potential(card, breakdown[..j], month)
    {
      var e := breakdown[j];
      potential := potential + RewardFor(card, e.category, e.amount, month);
      assert breakdown[..j + 1][..j] == breakdown[..j];
      j := j + 1;
    }
    assert breakdown[..j] == breakdown;
  }

  /** `_analyze_annual_fees`: for each fee-bearing card, sum what it would
      earn over the breakdown and return at the first that clears 100 net. */
  method AnalyzeAnnualFees(breakdown: seq<Entry>, allCards: seq<Card>, month: int)
    returns (rec: Option<Recommendation>)
    ensures rec == FeeSpec(breakdown, allCards, month)
  {
    var totalAnnual := CurrentAnnual(breakdown);
    var i := 0;
    while i < |allCards|
      invariant 0 <= i <= |allCards|
      invariant forall j :: 0 <= j < i ==> !WorthTheFee(allCards[j], breakdown, month)
    {
      var card := allCards[i];
      var fee := AnnualFee(card);
      if fee > 0.0 {
        var potential := PotentialOf(card, breakdown, month);
        var netBenefit := potential * 12.0 - totalAnnual - fee;
        if netBenefit > 100.0 {
          FeeSpecFirst(breakdown, allCards, month, i);
          return Some(AnnualFeeCard(card.name, netBenefit, fee));
        }
      }
      i := i + 1;
    }
    return None;
  }

  // ---------------------------------------------------------------------
  // The assembled list

  /** The list built from the missing categories found, the fee
      recommendation found (if any) and the quarter, in emission order. */
  function Assemble(missing: seq<string>, fee: Option<Recommendation>, quarter: string): seq<Recommendation> {
    (if missing != [] then [MissingCategories(missing)] else []) +
    (if fee.Some? then [fee.value] else []) + [RotatingReminder(quarter), SignupBonus]
  }

  /** Each kind appears at most once, in the fixed order, and the last two
      are always the rotating reminder and the sign-up nudge. */
  lemma AssembleOrder(missing: seq<string>, fee: Option<Recommendation>, quarter: string)
    requires fee.Some? ==> fee.value.AnnualFeeCard?
    ensures var r := Assemble(missing, fee, quarter);
      && (forall i, j :: 0 <= i < j < |r| ==> Rank(r[i]) < Rank(r[j]))
      && |r| >= 2 && r[|r| - 2] == RotatingReminder(quarter) && r[|r| - 1] == SignupBonus
  {
    var r := Assemble(missing, fee, quarter);
    var rr := RotatingReminder(quarter);
    if missing != [] && fee.Some? {
      assert r == [MissingCategories(missing), fee.value, rr, SignupBonus];
    } else if missing != [] {
      assert r == [MissingCategories(missing), rr, SignupBonus];
    } else if fee.Some? {
      assert r == [fee.value, rr, SignupBonus];
    } else {
      assert r == [rr, SignupBonus];
    }
  }

  /** The missing-categories entry and the fee entry appear exactly when
      there is something to report, carrying what was found. */
  lemma AssemblePresence(missing: seq<string>, fee: Option<Recommendation>, quarter: string)
    requires fee.Some? ==> fee.value.AnnualFeeCard?
    ensures var r := Assemble(missing, fee, quarter);
      && ((exists i :: 0 <= i < |r| && r[i].MissingCategories?) <==> missing != [])
      && (forall i :: 0 <= i < |r| && r[i].MissingCategories? ==> r[i].categories == missing)
      && ((exists i :: 0 <= i < |r| && r[i].AnnualFeeCard?) <==> fee.Some?)
      && (forall i :: 0 <= i < |r| && r[i].AnnualFeeCard? ==> fee == Some(r[i]))
  {
    var r := Assemble(missing, fee, quarter);
    var h := if missing != [] then 1 else 0;
    assert missing != [] ==> r[0] == MissingCategories(missing);
    assert fee.Some? ==> r[h] == fee.value;
    assert forall i :: 0 <= i < |r| && r[i].MissingCategories? ==> i == 0 && h == 1;
    assert forall i :: 0 <= i < |r| && r[i].AnnualFeeCard? ==> i == h && fee.Some?;
  }

  /** `_generate_recommendations`: the entries that apply, in the fixed order
      missing categories, annual fee, rotating reminder, sign-up bonus. */
  function RecommendationsSpec(breakdown: seq<Entry>, allCards: seq<Card>, month: int): (r: seq<Recommendation>)
    ensures forall i, j :: 0 <= i < j < |r| ==> Rank(r[i]) < Rank(r[j])
    ensures |r| >= 2 && r[|r| - 2] == RotatingReminder(Quarter(month)) && r[|r| - 1] == SignupBonus
    ensures (exists i :: 0 <= i < |r| && r[i].MissingCategories?) <==>
      exists i :: 0 <= i < |breakdown| && Flagged(breakdown[i], allCards, month)
    ensures forall i :: 0 <= i < |r| && r[i].MissingCategories? ==>
      r[i].categories == MissingSpec(breakdown, allCards, month)
    ensures (exists i :: 0 <= i < |r| && r[i].AnnualFeeCard?) <==>
      exists j :: 0 <= j < |allCards| && WorthTheFee(allCards[j], breakdown, month)
  {
    var missing := MissingSpec(breakdown, allCards, month);
    var fee := FeeSpec(breakdown, allCards, month);
    MissingNonEmptyIffFlagged(breakdown, allCards, month);
    AssembleOrder(missing, fee, Quarter(month));
    AssemblePresence(missing, fee, Quarter(month));
    Assemble(missing, fee, Quarter(month))
  }

  /** The list runs from the most urgent entry to the least: high, then
      medium, then low. */
  lemma PrioritiesDescend(missing: seq<string>, fee: Option<Recommendation>, quarter: string)
    requires fee.Some? ==> fee.value.AnnualFeeCard?
    ensures var r := Assemble(missing, fee, quarter);
      forall i, j :: 0 <= i < j < |r| ==> Urgency(PriorityOf(r[i])) <= Urgency(PriorityOf(r[j]))
  {
    var r := Assemble(missing, fee, quarter);
    AssembleOrder(missing, fee, quarter);
    forall i, j | 0 <= i < j < |r| ensures Urgency(PriorityOf(r[i])) <= Urgency(PriorityOf(r[j])) {
      assert Rank(r[i]) < Rank(r[j]);
    }
  }

  /** Some category is listed exactly when some row is flagged. */
  lemma MissingNonEmptyIffFlagged(breakdown: seq<Entry>, allCards: seq<Card>, month: int)
    ensures MissingSpec(breakdown, allCards, month) != [] <==>
      exists i :: 0 <= i < |breakdown| && Flagged(breakdown[i], allCards, month)
  {
    var missing := MissingSpec(breakdown, allCards, month);
    if exists i :: 0 <= i < |breakdown| && Flagged(breakdown[i], allCards, month) {
      var i :| 0 <= i < |breakdown| && Flagged(breakdown[i], allCards, month);
      assert breakdown[i].category in missing;
    }
    if missing != [] {
      assert missing[0] in missing;
    }
  }

  /** Counts the entries of the given `type`. */
  function CountType(recs: seq<Recommendation>, t: RecType): nat {
    if recs == [] then 0
    else (if TypeOf(recs[0]) == t then 1 else 0) + CountType(recs[1..], t)
  }

  lemma {:induction false} CountTypeAppend(a: seq<Recommendation>, b: seq<Recommendation>, t: RecType)
    ensures CountType(a + b, t) == CountType(a, t) + CountType(b, t)
  {
    if a == [] {
      assert a + b == b;
    } else {
      assert (a + b)[0] == a[0];
      assert (a + b)[1..] == a[1..] + b;
      CountTypeAppend(a[1..], b, t);
    }
  }

  lemma CountSingleton(x: Recommendation, t: RecType)
    ensures CountType([x], t) == if TypeOf(x) == t then 1 else 0
  {
    assert [x][1..] == [];
  }

  /** The recommendations in emission order, from the missing categories
      found and the fee recommendation found. */
  lemma RecommendationsInOrder(breakdown: seq<Entry>, allCards: seq<Card>, month: int)
    ensures var missing := MissingSpec(breakdown, allCards, month);
      var fee := FeeSpec(breakdown, allCards, month);
      RecommendationsSpec(breakdown, allCards, month) ==
        (if missing != [] then [] + [MissingCategories(missing)] else []) +
        (if fee.Some? then [fee.value] else []) + [RotatingReminder(Quarter(month))] + [SignupBonus]
  {
    var missing := MissingSpec(breakdown, allCards, month);
    var fee := FeeSpec(breakdown, allCards, month);
    assert [] + [MissingCategories(missing)] == [MissingCategories(missing)];
  }

  /** The count in the three parts an assembled list is made of. */
  lemma CountParts(missing: seq<string>, fee: Option<Recommendation>, quarter: string, t: RecType)
    requires fee.Some? ==> fee.value.AnnualFeeCard?
    ensures CountType(Assemble(missing, fee, quarter), t) ==
      (if missing != [] && t == MissingCategoriesType then 1 else 0) +
      (if fee.Some? && t == AnnualFeeType then 1 else 0) +
      (if t == RotatingType || t == SignupBonusType then 1 else 0)
  {
    var head := if missing != [] then [MissingCategories(missing)] else [];
    var feePart := if fee.Some? then [fee.value] else [];
    var reminders := [RotatingReminder(quarter)] + [SignupBonus];
    assert Assemble(missing, fee, quarter) == head + (feePart + reminders);
    CountTypeAppend(head, feePart + reminders, t);
    CountTypeAppend(feePart, reminders, t);
    CountTypeAppend([RotatingReminder(quarter)], [SignupBonus], t);
    CountSingleton(RotatingReminder(quarter), t);
    CountSingleton(SignupBonus, t);
    if missing != [] { CountSingleton(MissingCategories(missing), t); }
    if fee.Some? { CountSingleton(fee.value, t); }
  }

  /** Counting by `type` in an assembled list. */
  lemma AssembleCounts(missing: seq<string>, fee: Option<Recommendation>, quarter: string)
    requires fee.Some? ==> fee.value.AnnualFeeCard?
    ensures var r := Assemble(missing, fee, quarter);
      && CountType(r, RotatingType) == 1
      && CountType(r, SignupBonusType) == 1
      && CountType(r, MissingCategoriesType) == (if missing != [] then 1 else 0)
      && CountType(r, AnnualFeeType) == (if fee.Some? then 1 else 0)
  {
    CountParts(missing, fee, quarter, RotatingType);
    CountParts(missing, fee, quarter, SignupBonusType);
    CountParts(missing, fee, quarter, MissingCategoriesType);
    CountParts(missing, fee, quarter, AnnualFeeType);
  }

  /** The rotating reminder and the sign-up nudge appear exactly once each;
      the other two kinds at most once, each exactly when its trigger holds. */
  lemma RecommendationCounts(breakdown: seq<Entry>, allCards: seq<Card>, month: int)
    ensures var r := RecommendationsSpec(breakdown, allCards, month);
      && CountType(r, RotatingType) == 1
      && CountType(r, SignupBonusType) == 1
      && CountType(r, MissingCategoriesType) == (if exists i :: 0 <= i < |breakdown| && Flagged(breakdown[i], allCards, month) then 1 else 0)
      && CountType(r, AnnualFeeType) == (if exists j :: 0 <= j < |allCards| && WorthTheFee(allCards[j], breakdown, month) then 1 else 0)
  {
    MissingNonEmptyIffFlagged(breakdown, allCards, month);
    AssembleCounts(MissingSpec(breakdown, allCards, month), FeeSpec(breakdown, allCards, month), Quarter(month));
  }

  /** The recommendation builder: append each entry that applies, in order. */
  method GenerateRecommendations(breakdown: seq<Entry>, allCards: seq<Card>, month: int)
    returns (recs: seq<Recommendation>)
    ensures recs == RecommendationsSpec(breakdown, allCards, month)
  {
    recs := [];
    var missing := FindMissingCategories(breakdown, allCards, month);
    if missing != [] {
      recs := recs + [MissingCategories(missing)];
    }
    var fee := AnalyzeAnnualFees(breakdown, allCards, month);
    if fee.Some? {
      recs := recs + [fee.value];
    }
    recs := recs + [RotatingReminder(Quarter(month))];
    recs := recs + [SignupBonus];
    RecommendationsInOrder(breakdown, allCards, month);
  }
}
