/**
 * The honeypot's reply planner, `generate_response`: a decision on the turn
 * number and on words in the current message, lower-cased. Within a turn
 * the first matching branch wins.
 */
module Planner {
  import opened Wrappers
  import opened Text

  const AskWhyBlocked: string := "Why will my account be blocked?"
  const AskHowToClaim: string := "Really? How do I claim it?"
  const AskWhatToVerify: string := "How do I verify this? What information do you need?"
  const AskToExplain: string := "Can you please explain what this is about?"
  const WaryOfLinks: string := "I'm worried about clicking links. Can you give me more details first?"
  const AskNumberAndName: string := "What number should I call? What's your name?"
  const AskWhereToPay: string := "Where should I send the payment? What's your UPI ID?"
  const AskOfficialContact: string := "Can you give me your official contact details?"
  const AskCredentials: string := "I want to help but I'm nervous. Can you provide your company details and employee ID?"
  const AskAmountAndAccount: string := "How much do I need to pay? What's your bank account number?"
  const AskNextStep: string := "What's the next step? How long will this take?"

  /** The stalling questions of turn five and later, in order. */
  const StallingBank: seq<string> := [
    "Can you send me an official email with all the details? What's your email address?",
    "My family wants everything in writing. Can you provide your office address?",
    "What's your supervisor's name and contact number?",
    "Which branch are you calling from? What's the reference number?",
    "I need to verify this with my bank. What exact information do you need?"]

  /** Python list indexing with a possibly negative index: `-1` is the last
      entry. Indices from `-|s|` to `|s| - 1` are in range. */
  function PyIndex<T>(s: seq<T>, i: int): T
    requires -|s| <= i < |s|
  {
    if i < 0 then s[i + |s|] else s[i]
  }

  /** `generate_response`. The history argument is accepted and never read.
      Turn 0 never reaches here from a session, but the code would index the
      bank at -5, which Python reads as the first entry. */
  function GenerateResponse<H>(message: string, turnNumber: nat, history: seq<H>): string {
    var lower := Lower(message);
    if turnNumber == 1 then
      if AnyIn(lower, ["block", "suspend", "deactivate"]) then AskWhyBlocked
      else if AnyIn(lower, ["won", "prize", "lottery"]) then AskHowToClaim
      else if AnyIn(lower, ["verify", "confirm"]) then AskWhatToVerify
      else AskToExplain
    else if turnNumber == 2 then
      if AnyIn(lower, ["click", "link", "website"]) then WaryOfLinks
      else if AnyIn(lower, ["call", "contact"]) then AskNumberAndName
      else if AnyIn(lower, ["upi", "payment", "send"]) then AskWhereToPay
      else AskOfficialContact
    else if turnNumber == 3 then
      AskCredentials
    else if turnNumber == 4 then
      if AnyIn(lower, ["pay", "fee", "charge"]) then AskAmountAndAccount
      else AskNextStep
    else
      PyIndex(StallingBank, Min(turnNumber - 5, |StallingBank| - 1))
  }

  // ---------------------------------------------------------------- the same policy as a table

  /** A reply given when any of the words occurs. */
  datatype Rule = Rule(words: seq<string>, reply: string)

  /** A turn's ordered rules and the reply when none fires. */
  datatype TurnPolicy = TurnPolicy(rules: seq<Rule>, fallback: string)

  /** The reply policy as data: one ordered rule list per turn. */
  function Policy(turnNumber: nat): TurnPolicy {
    if turnNumber == 1 then
      TurnPolicy([Rule(["block", "suspend", "deactivate"], AskWhyBlocked),
                  Rule(["won", "prize", "lottery"], AskHowToClaim),
                  Rule(["verify", "confirm"], AskWhatToVerify)], AskToExplain)
    else if turnNumber == 2 then
      TurnPolicy([Rule(["click", "link", "website"], WaryOfLinks),
                  Rule(["call", "contact"], AskNumberAndName),
                  Rule(["upi", "payment", "send"], AskWhereToPay)], AskOfficialContact)
    else if turnNumber == 3 then
      TurnPolicy([], AskCredentials)
    else if turnNumber == 4 then
      TurnPolicy([Rule(["pay", "fee", "charge"], AskAmountAndAccount)], AskNextStep)
    else if turnNumber == 0 then
      TurnPolicy([], StallingBank[0])
    else
      TurnPolicy([], StallingBank[if turnNumber - 5 < 4 then turnNumber - 5 else 4])
  }

  /** The reply of the first rule whose words occur, else the fallback. */
  function FirstMatch(rules: seq<Rule>, lower: string, fallback: string): (r: string)
    ensures forall i :: (0 <= i < |rules| && AnyIn(lower, rules[i].words)
                          && (forall j :: 0 <= j < i ==> !AnyIn(lower, rules[j].words))) ==> r == rules[i].reply
    ensures (forall j :: 0 <= j < |rules| ==> !AnyIn(lower, rules[j].words)) ==> r == fallback
  {
    if |rules| == 0 then fallback
    else if AnyIn(lower, rules[0].words) then rules[0].reply
    else
      var r := FirstMatch(rules[1..], lower, fallback);
      assert forall i :: 1 <= i < |rules| ==> rules[i] == rules[1..][i - 1];
      r
  }

  /** The nested conditionals and the table give the same reply. */
  lemma PlannerFollowsPolicy<H>(message: string, turnNumber: nat, history: seq<H>)
    ensures GenerateResponse(message, turnNumber, history)
            == FirstMatch(Policy(turnNumber).rules, Lower(message), Policy(turnNumber).fallback)
  {
    var lower := Lower(message);
    var p := Policy(turnNumber);
    if turnNumber == 1 || turnNumber == 2 {
      FirstMatchOfThree(p.rules, lower, p.fallback);
    } else if turnNumber == 4 {
      assert p.rules[1..] == [];
    }
  }

  lemma FirstMatchOfThree(rules: seq<Rule>, lower: string, fallback: string)
    requires |rules| == 3
    ensures FirstMatch(rules, lower, fallback)
            == if AnyIn(lower, rules[0].words) then rules[0].reply
               else if AnyIn(lower, rules[1].words) then rules[1].reply
               else if AnyIn(lower, rules[2].words) then rules[2].reply
               else fallback
  {
    assert rules[1..][1..][1..] == [];
  }

  // ---------------------------------------------------------------- properties

  /** Turn three always asks for credentials, whatever the message says. */
  lemma CredentialsAtTurnThree<H>(message: string, history: seq<H>)
    ensures GenerateResponse(message, 3, history) == AskCredentials
  {
  }

  /** From turn five on the reply is the bank entry `min(n - 5, 4)`, so from
      turn nine on it stays on the last entry and never leaves the bank. */
  lemma StallingFromTurnFive<H>(message: string, turnNumber: nat, history: seq<H>)
    requires turnNumber >= 5
    ensures GenerateResponse(message, turnNumber, history) == StallingBank[Min(turnNumber - 5, 4)]
    ensures turnNumber >= 9 ==> GenerateResponse(message, turnNumber, history) == StallingBank[4]
  {
  }

  /** The reply depends on the message and the turn only. */
  lemma HistoryIgnored<H>(message: string, turnNumber: nat, h1: seq<H>, h2: seq<H>)
    ensures GenerateResponse(message, turnNumber, h1) == GenerateResponse(message, turnNumber, h2)
  {
  }

  /** Every reply the planner can give. */
  const Replies: set<string> := {
    AskWhyBlocked, AskHowToClaim, AskWhatToVerify, AskToExplain,
    WaryOfLinks, AskNumberAndName, AskWhereToPay, AskOfficialContact,
    AskCredentials, AskAmountAndAccount, AskNextStep} + set r | r in StallingBank

  lemma ReplyFromRepertoire<H>(message: string, turnNumber: nat, history: seq<H>)
    ensures GenerateResponse(message, turnNumber, history) in Replies
  {
    if turnNumber >= 5 || turnNumber == 0 {
      assert GenerateResponse(message, turnNumber, history) in StallingBank;
    }
  }
}
