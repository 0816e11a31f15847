/**
 * The intelligence bundle and `extract_intelligence`: the phone numbers, UPI
 * handles, links and bank identifiers found in one message, each family as a
 * set of distinct strings.
 */
module Extraction {
  import opened Text
  import opened Wrappers
  import opened Regex
  import opened RegexFacts

  /** The five intelligence lists, keyed as in the report; each holds distinct
      strings in an order the model does not fix, hence a set. */
  datatype Intel = Intel(
    phoneNumbers: set<string>,
    upiIds: set<string>,
    phishingLinks: set<string>,
    bankAccounts: set<string>,
    suspiciousKeywords: set<string>)

  const NoIntel: Intel := Intel({}, {}, {}, {}, {})

  /** `set(re.findall(p, t))`. */
  function Found(p: Pattern, t: string): set<string> {
    set w | w in FindAll(p, t, 0)
  }

  /** `w` is a whole word of `t` that is a 9-18 digit account number or an
      IFSC code. */
  ghost predicate IsBankToken(t: string, w: string) {
    exists a: nat, b: nat :: IsWordToken(t, a, b) && (AccountShape(t[a..b]) || IfscShape(t[a..b])) && w == t[a..b]
  }

  /** `extract_intelligence`. The keyword list is always left empty here;
      the session fills it from `extract_suspicious_keywords`. */
  function ExtractIntelligence(message: string): (r: Intel)
    ensures r.suspiciousKeywords == {}
  {
    Intel(
      Found(Phone, message),
      Found(Upi, message),
      Found(Url, message),
      Found(Account, message) + Found(Ifsc, message),
      {})
  }

  /** The bank identifiers extracted are exactly the whole words of the
      message that are 9-18 digit numbers or IFSC codes: no other word, and
      no piece of a longer word, is reported. */
  lemma BankAccountsAreTokens(message: string)
    ensures forall w :: w in ExtractIntelligence(message).bankAccounts <==> IsBankToken(message, w)
  {
    FindAllTokens(Account, message, 0);
    FindAllTokens(Ifsc, message, 0);
    forall w
      ensures w in ExtractIntelligence(message).bankAccounts <==> IsBankToken(message, w)
    {
      if IsBankToken(message, w) {
        var a: nat, b: nat :| IsWordToken(message, a, b) && (AccountShape(message[a..b]) || IfscShape(message[a..b])) && w == message[a..b];
        if AccountShape(message[a..b]) {
          assert ShapedTokenFrom(Account, message, 0, w);
        } else {
          assert ShapedTokenFrom(Ifsc, message, 0, w);
        }
      }
    }
  }

  /** The match found for an element of a findall result. */
  lemma MatchOf(p: Pattern, t: string, w: string) returns (a: nat, e: nat)
    requires w in Found(p, t)
    ensures a < e <= |t| && MatchAt(p, t, a) == Some(e) && w == t[a..e]
  {
    FindAllMatched(p, t, 0);
    var k :| 0 <= k < |FindAll(p, t, 0)| && FindAll(p, t, 0)[k] == w;
    assert MatchedFrom(p, t, 0, w);
    a, e :| 0 <= a < e <= |t| && MatchAt(p, t, a) == Some(e) && w == t[a..e];
  }

  /** Every extracted phone number occurs in the message and has the phone
      shape: at least ten digits, and nothing but digits, `+` and separators.
      Separators are kept as written, so one number written two ways makes
      two entries. */
  lemma PhoneNumbersAreShaped(message: string, w: string)
    requires w in ExtractIntelligence(message).phoneNumbers
    ensures exists a :: OccursAt(message, w, a)
    ensures PhoneShape(w)
  {
    var a, e := MatchOf(Phone, message, w);
    PhoneMatchShape(message, a, e);
    SliceOccurs(message, a, e);
  }

  /** Every extracted link occurs in the message and is `http://` or
      `https://` followed by link characters only. */
  lemma LinksAreShaped(message: string, w: string)
    requires w in ExtractIntelligence(message).phishingLinks
    ensures exists a :: OccursAt(message, w, a)
    ensures LinkShape(w)
  {
    var a, e := MatchOf(Url, message, w);
    UrlMatchShape(message, a, e);
    SliceOccurs(message, a, e);
  }

  /** Every extracted UPI handle occurs in the message and is a local part,
      one `@`, and a provider made of letters only. */
  lemma UpiIdsAreShaped(message: string, w: string)
    requires w in ExtractIntelligence(message).upiIds
    ensures exists a :: OccursAt(message, w, a)
    ensures UpiShape(w)
  {
    var a, e := MatchOf(Upi, message, w);
    UpiMatchShape(message, a, e);
    SliceOccurs(message, a, e);
  }
}
