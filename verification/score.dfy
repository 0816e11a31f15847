/**
 * The scam scorer: a linear score over the catalog's categories, each
 * counted at most once, plus bonuses for a link and a phone number, clamped
 * to the full score; a message is a scam when the score reaches the
 * threshold. Scores are in hundredths, so 100 is a score of 1.0.
 */
module Score {
  import opened Wrappers
  import opened Text
  import opened Catalog
  import opened Regex

  /** `is_scam`'s default threshold, 0.3. */
  const Threshold: nat := 30
  /** Bonus for a link, 0.15. */
  const LinkBonus: nat := 15
  /** Bonus for a phone number, 0.05. */
  const PhoneBonus: nat := 5

  /** Some trigger of `c` occurs in the lower-cased message. */
  predicate Hit(c: Category, lower: string) {
    AnyIn(lower, Patterns(c))
  }

  /** Weight earned by a list of categories: each hit category adds its
      weight once, however many of its triggers occur. */
  function CategoryPoints(cs: seq<Category>, lower: string): (r: nat)
    ensures r <= WeightSum(cs)
  {
    if |cs| == 0 then 0
    else CategoryPoints(cs[..|cs| - 1], lower) + (if Hit(cs[|cs| - 1], lower) then Weight(cs[|cs| - 1]) else 0)
  }

  /** The link and phone-number bonuses; searched in the message as written,
      not lower-cased. */
  function Bonus(message: string): nat {
    (if Search(Url, message) then LinkBonus else 0) + (if Search(Phone, message) then PhoneBonus else 0)
  }

  /** `calculate_scam_score`, in hundredths. */
  function ScamScore(message: string): (r: nat)
    ensures r <= 100
  {
    Min(CategoryPoints(Categories, Lower(message)) + Bonus(message), 100)
  }

  /** `is_scam` with its default threshold. Since the threshold is below
      the clamp, the clamp never decides it. */
  predicate IsScam(message: string)
    ensures IsScam(message) <==> CategoryPoints(Categories, Lower(message)) + Bonus(message) >= Threshold
  {
    ScamScore(message) >= Threshold
  }

  /** The inner loop of `calculate_scam_score`: does some trigger of the
      list occur? It stops at the first one that does. */
  method FirstTriggerFound(ps: seq<string>, lower: string) returns (found: bool)
    ensures found <==> AnyIn(lower, ps)
  {
    found := false;
    var j := 0;
    while j < |ps|
      invariant 0 <= j <= |ps|
      invariant forall k :: 0 <= k < j ==> !Contains(lower, ps[k])
    {
      if Contains(lower, ps[j]) {
        found := true;
        break;
      }
      j := j + 1;
    }
  }

  lemma PointsStep(cs: seq<Category>, i: nat, lower: string)
    requires i < |cs|
    ensures CategoryPoints(cs[..i + 1], lower)
            == CategoryPoints(cs[..i], lower) + (if Hit(cs[i], lower) then Weight(cs[i]) else 0)
    ensures WeightSum(cs[..i + 1]) == WeightSum(cs[..i]) + Weight(cs[i])
  {
    assert cs[..i + 1][..i] == cs[..i];
  }

  /** The category loop of `calculate_scam_score`: the earned weight and
      the total weight of the categories walked. */
  method WalkCategories(cs: seq<Category>, lower: string) returns (total: nat, maxScore: nat)
    ensures total == CategoryPoints(cs, lower)
    ensures maxScore == WeightSum(cs)
  {
    total := 0;
    maxScore := 0;
    var i := 0;
    while i < |cs|
      invariant 0 <= i <= |cs|
      invariant total == CategoryPoints(cs[..i], lower)
      invariant maxScore == WeightSum(cs[..i])
    {
      var c := cs[i];
      PointsStep(cs, i, lower);
      maxScore := maxScore + Weight(c);
      var found := FirstTriggerFound(Patterns(c), lower);
      if found {
        total := total + Weight(c);
      }
      i := i + 1;
    }
    assert cs[..i] == cs;
  }

  /** `calculate_scam_score` step by step: walk the categories, normalise by
      the total weight, add the bonuses and clamp. */
  method CalculateScamScore(message: string) returns (score: nat)
    ensures score == ScamScore(message)
  {
    var total, maxScore := WalkCategories(Categories, Lower(message));
    FullWeight();
    var normalized: int := if maxScore > 0 then total * 100 / maxScore else 0;
    score := normalized;
    if Search(Url, message) {
      score := score + LinkBonus;
    }
    if Search(Phone, message) {
      score := score + PhoneBonus;
    }
    score := Min(score, 100);
  }

  // ---------------------------------------------------------------- the score's meaning

  /** The categories of `cs` that hit, in order. */
  function HitCategories(cs: seq<Category>, lower: string): (r: seq<Category>)
    ensures forall c :: c in r <==> c in cs && Hit(c, lower)
    ensures |r| <= |cs|
  {
    if |cs| == 0 then []
    else
      var last := cs[|cs| - 1];
      HitCategories(cs[..|cs| - 1], lower) + (if Hit(last, lower) then [last] else [])
  }

  /** The category points are the weights of exactly the hit categories. */
  lemma {:induction false} PointsAreHitWeights(cs: seq<Category>, lower: string)
    ensures CategoryPoints(cs, lower) == WeightSum(HitCategories(cs, lower))
    decreases |cs|
  {
    if |cs| > 0 {
      var init := cs[..|cs| - 1];
      var last := cs[|cs| - 1];
      PointsAreHitWeights(init, lower);
      var h := HitCategories(init, lower);
      if Hit(last, lower) {
        assert (h + [last])[..|h + [last]| - 1] == h;
      } else {
        assert h + [] == h;
      }
    }
  }

  /** Two messages that hit the same categories and carry the same kinds of
      bonus get the same score, however many triggers each holds. */
  lemma SameSignalsSameScore(m1: string, m2: string)
    requires forall c :: Hit(c, Lower(m1)) == Hit(c, Lower(m2))
    requires Search(Url, m1) == Search(Url, m2) && Search(Phone, m1) == Search(Phone, m2)
    ensures ScamScore(m1) == ScamScore(m2)
  {
    PointsAreHitWeights(Categories, Lower(m1));
    PointsAreHitWeights(Categories, Lower(m2));
    HitsAgree(Categories, Lower(m1), Lower(m2));
  }

  lemma {:induction false} HitsAgree(cs: seq<Category>, l1: string, l2: string)
    requires forall c :: Hit(c, l1) == Hit(c, l2)
    ensures HitCategories(cs, l1) == HitCategories(cs, l2)
    decreases |cs|
  {
    if |cs| > 0 {
      HitsAgree(cs[..|cs| - 1], l1, l2);
    }
  }

  lemma {:induction false} NoHitsNoPoints(cs: seq<Category>, lower: string)
    requires forall c :: c in cs ==> !Hit(c, lower)
    ensures CategoryPoints(cs, lower) == 0
    decreases |cs|
  {
    if |cs| > 0 {
      NoHitsNoPoints(cs[..|cs| - 1], lower);
    }
  }

  /** A message with no trigger word, no link and no phone number scores zero
      and is not a scam. */
  lemma NoSignalNoScam(message: string)
    requires forall c :: !Hit(c, Lower(message))
    requires !Search(Url, message) && !Search(Phone, message)
    ensures ScamScore(message) == 0 && !IsScam(message)
  {
    NoHitsNoPoints(Categories, Lower(message));
  }

  /** Over a list without repeats where only `c` can hit, the points are at
      most `c`'s weight. */
  lemma {:induction false} OnlyOneCategoryPoints(cs: seq<Category>, lower: string, c: Category)
    requires NoRepeats(cs)
    requires forall d :: d in cs && Hit(d, lower) ==> d == c
    ensures CategoryPoints(cs, lower) <= (if c in cs then Weight(c) else 0)
    decreases |cs|
  {
    if |cs| > 0 {
      var init := cs[..|cs| - 1];
      assert forall k :: 0 <= k < |init| ==> init[k] == cs[k];
      OnlyOneCategoryPoints(init, lower, c);
      if cs[|cs| - 1] == c {
        assert c !in init;
      } else if c in init {
        assert c in cs;
      }
    }
  }

  /** The heaviest category weighs 0.25, so no single category makes a scam
      without a bonus. */
  lemma OneCategoryIsNotEnough(message: string, c: Category)
    requires forall d :: Hit(d, Lower(message)) ==> d == c
    requires !Search(Url, message) && !Search(Phone, message)
    ensures !IsScam(message)
  {
    CategoriesDistinct();
    OnlyOneCategoryPoints(Categories, Lower(message), c);
  }

  /** A threat plus a phone number is exactly 0.30: enough, because the
      threshold is inclusive. */
  lemma ThreatWithPhoneIsScam(message: string)
    requires Hit(Threats, Lower(message)) && Search(Phone, message)
    ensures IsScam(message)
  {
    var lower := Lower(message);
    PointsAreHitWeights(Categories, lower);
    assert Threats in HitCategories(Categories, lower);
    WeightSumOfMember(HitCategories(Categories, lower), Threats);
  }

  /** Urgency, a threat and a request for personal details together earn
      at least 0.60. */
  lemma ThreeHitsEarnSixty(lower: string)
    requires Hit(Urgency, lower) && Hit(Threats, lower) && Hit(PersonalInfo, lower)
    ensures CategoryPoints(Categories, lower) >= 60
  {
    var cs := Categories;
    FirstFourEarnSixty(lower);
    PointsStep(cs, 4, lower);
    PointsStep(cs, 5, lower);
    assert cs[..6] == cs;
  }

  lemma FirstFourEarnSixty(lower: string)
    requires Hit(Urgency, lower) && Hit(Threats, lower) && Hit(PersonalInfo, lower)
    ensures CategoryPoints(Categories[..4], lower) >= 60
  {
    var cs := Categories;
    FirstTwoEarnForty(lower);
    PointsStep(cs, 2, lower);
    PointsStep(cs, 3, lower);
  }

  lemma FirstTwoEarnForty(lower: string)
    requires Hit(Urgency, lower) && Hit(Threats, lower)
    ensures CategoryPoints(Categories[..2], lower) == 40
  {
    var cs := Categories;
    assert cs[..0] == [];
    PointsStep(cs, 0, lower);
    PointsStep(cs, 1, lower);
  }

  lemma {:induction false} WeightSumOfMember(cs: seq<Category>, c: Category)
    requires c in cs
    ensures WeightSum(cs) >= Weight(c)
    decreases |cs|
  {
    if cs[|cs| - 1] != c {
      assert c in cs[..|cs| - 1];
      WeightSumOfMember(cs[..|cs| - 1], c);
    }
  }

  // ---------------------------------------------------------------- suspicious keywords

  /** The triggers of `ps` that occur in `lower`, in order. */
  function OccurringTriggers(ps: seq<string>, lower: string): (r: seq<string>)
    ensures forall w :: w in r <==> w in ps && Contains(lower, w)
  {
    if |ps| == 0 then []
    else
      var last := ps[|ps| - 1];
      OccurringTriggers(ps[..|ps| - 1], lower) + (if Contains(lower, last) then [last] else [])
  }

  /** Python's `set(...)` of a list, here keeping first occurrences in order. */
  function Dedup(s: seq<string>): (r: seq<string>)
    ensures NoRepeats(r)
    ensures forall w :: w in r <==> w in s
  {
    if |s| == 0 then []
    else
      var rest := Dedup(s[..|s| - 1]);
      var last := s[|s| - 1];
      if last in rest then rest else rest + [last]
  }

  /** A list without repeats has as many distinct elements as entries. */
  lemma {:induction false} NoRepeatsCard(s: seq<string>)
    requires NoRepeats(s)
    ensures |set w | w in s| == |s|
    decreases |s|
  {
    if |s| > 0 {
      var init := s[..|s| - 1];
      NoRepeatsCard(init);
      assert (set w | w in s) == (set w | w in init) + {s[|s| - 1]};
      assert s[|s| - 1] !in init;
    }
  }

  /** The distinct catalog triggers occurring in the lower-cased message. */
  function MatchedTriggers(message: string): set<string> {
    set w | w in AllPatterns() && Contains(Lower(message), w)
  }

  /** `extract_suspicious_keywords`: the distinct triggers that occur, at most
      ten of them. Which ten Python keeps when more occur depends on its set
      iteration order; the model keeps the first ten in catalog order. */
  function SuspiciousKeywords(message: string): (r: seq<string>)
    ensures |r| <= 10 && NoRepeats(r)
    ensures forall w :: w in r ==> w in AllPatterns() && Contains(Lower(message), w)
  {
    var found := Dedup(OccurringTriggers(AllPatterns(), Lower(message)));
    if |found| <= 10 then found else found[..10]
  }

  /** The keyword list is as long as it may be: all the distinct triggers
      that occur, or ten of them when more occur; so when at most ten occur,
      every one is listed. */
  lemma KeywordsAreAllOrTen(message: string)
    ensures |SuspiciousKeywords(message)| == Min(10, |MatchedTriggers(message)|)
    ensures |MatchedTriggers(message)| <= 10 ==>
              forall w :: w in MatchedTriggers(message) ==> w in SuspiciousKeywords(message)
  {
    var found := Dedup(OccurringTriggers(AllPatterns(), Lower(message)));
    NoRepeatsCard(found);
    assert (set w | w in found) == MatchedTriggers(message);
  }
}
