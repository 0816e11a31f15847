/**
 * The scam pattern catalog: six categories, each a list of trigger words,
 * and each weighted in hundredths of the full score. Every trigger is a plain
 * word or phrase with no regular-expression metacharacter, so a regular
 * expression search for it is a substring search.
 */
module Catalog {
  import opened Wrappers

  datatype Category = Urgency | Threats | Financial | PersonalInfo | TooGood | Impersonation

  /** The categories in the catalog's declaration order, which is the order
      the scorer walks them in. */
  const Categories: seq<Category> := [Urgency, Threats, Financial, PersonalInfo, TooGood, Impersonation]

  function Patterns(c: Category): seq<string> {
    match c
    case Urgency => [
      "urgent", "immediately", "right now", "asap", "limited time",
      "act now", "expires", "hurry", "last chance", "time sensitive", "today"]
    case Threats => [
      "blocked", "suspended", "deactivated", "terminated", "cancelled",
      "legal action", "arrest", "lawsuit", "fraud", "unauthorized",
      "suspicious activity", "security alert", "freeze", "close"]
    case Financial => [
      "won", "prize", "lottery", "jackpot", "reward", "refund",
      "tax refund", "inheritance", "compensation", "claim",
      "transfer", "payment", "credit", "deposit", "wire", "upi"]
    case PersonalInfo => [
      "verify", "confirm", "update", "validate", "authenticate",
      "click here", "link", "account details", "password", "pin",
      "otp", "cvv", "card number", "social security", "aadhar", "share"]
    case TooGood => [
      "free", "guaranteed", "no risk", "100%", "amazing offer",
      "exclusive", "selected", "chosen", "congratulations"]
    case Impersonation => [
      "bank", "government", "irs", "income tax", "police",
      "court", "customs", "delivery", "fedex", "dhl",
      "amazon", "flipkart", "paytm", "phonepe", "google pay"]
  }

  /** Category weight in hundredths: 0.15, 0.25, 0.20, 0.20, 0.10, 0.10. */
  function Weight(c: Category): nat {
    match c
    case Urgency => 15
    case Threats => 25
    case Financial => 20
    case PersonalInfo => 20
    case TooGood => 10
    case Impersonation => 10
  }

  /** Sum of the weights of a list of categories. */
  function WeightSum(cs: seq<Category>): nat {
    if |cs| == 0 then 0 else WeightSum(cs[..|cs| - 1]) + Weight(cs[|cs| - 1])
  }

  /** The normalisation base: the weights of the whole catalog add up to one. */
  lemma FullWeight()
    ensures WeightSum(Categories) == 100
  {
    var cs := Categories;
    assert cs[..1][..0] == [];
    assert WeightSum(cs[..1]) == 15;
    assert cs[..2][..1] == cs[..1];
    assert WeightSum(cs[..2]) == 40;
    assert cs[..3][..2] == cs[..2];
    assert WeightSum(cs[..3]) == 60;
    assert cs[..4][..3] == cs[..3];
    assert WeightSum(cs[..4]) == 80;
    assert cs[..5][..4] == cs[..4];
    assert WeightSum(cs[..5]) == 90;
    assert cs[..6][..5] == cs[..5];
    assert cs[..6] == cs;
  }

  /** No category is listed twice. */
  lemma CategoriesDistinct()
    ensures NoRepeats(Categories)
  {
  }

  /** Every trigger of every category, category by category, in catalog order. */
  function PatternsOf(cs: seq<Category>): (r: seq<string>)
    ensures forall c, p :: c in cs && p in Patterns(c) ==> p in r
    ensures forall p :: p in r ==> exists c :: c in cs && p in Patterns(c)
  {
    if |cs| == 0 then [] else Patterns(cs[0]) + PatternsOf(cs[1..])
  }

  function AllPatterns(): seq<string> {
    PatternsOf(Categories)
  }
}
