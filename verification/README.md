# AI honey-pot: scam scoring, intelligence extraction, reply planning and sessions

A Dafny model of the core of `app.py`, the Flask service that receives
messages addressed to a potential scam victim, decides whether they are a
scam, and if so keeps the scammer talking while it collects phone numbers,
UPI handles, links and bank identifiers. The model covers:

- **`ScamDetector`**: the keyword catalog (six categories with weights 0.15,
  0.25, 0.20, 0.20, 0.10, 0.10), the scam score with its link and phone
  bonuses and its clamp at 1.0, the 0.3 threshold, and the list of
  suspicious keywords (modules `Catalog` and `Score`).
- **The regular expressions** of `extract_intelligence` and the bonus
  checks, written as hand-built matchers with Python `re` semantics
  (leftmost match, greedy repetition, backtracking where it can matter),
  and `re.findall` as a scanner (module `Regex`). Module `RegexFacts` states
  what each matcher accepts in plain terms: the phone, link and UPI shapes,
  and for bank identifiers an exact characterisation as whole word tokens.
- **`extract_intelligence`** (module `Extraction`) and **`generate_response`**
  (module `Planner`), with the planner also stated as a first-match rule
  table per turn.
- **The session step of `analyze_message`** (module `Sessions`): request
  validation, creating or fetching the session, the dormant path with its
  neutral reply, and the engaged path. The engaged path logs the message,
  counts the turn, merges the findings, plans and logs the reply, and
  rewrites the notes. From the third turn on it sends the report built by
  `send_final_result_to_guvi`.

Scores are integers in hundredths of the source's float score. The six
weights sum to exactly 1.0 in binary floating point. Each sum of hit
weights and bonuses compares with 0.3 in floating point as its integer
counterpart compares with 30. So the integer model classifies exactly as
the source does.

`str.lower()` is modelled as Python does it on every character whose lower
case contains an ASCII letter: A–Z, the Kelvin sign (to `k`) and capital I
with dot above (to `i` plus a combining dot). All other characters are kept.
Every catalog entry and trigger word is ASCII. So containment of those
words in the lower-cased message is the same as in Python.

Behaviour of `app.py` worth knowing:

- Phone numbers are not normalised before they are deduplicated. A number
  written with and without separators gives two entries.
- The impersonation category is hit only by its own triggers. The message
  proved in `Scenarios.AlertIsScam`, "URGENT: your account will be blocked,
  verify now at http://x.example/v, call 9876543210", contains none of
  them. It hits urgency, threats and personal information, and with both
  bonuses it scores at least 80 hundredths. The link keeps its trailing comma, because
  the comma is in the link pattern's character class.
- The notes count phone numbers, UPI handles and links only. Bank
  identifiers and keywords are not counted.
- Lines 304-309 of `app.py` (the reply to a request without a JSON body)
  are dedented to function level, out of the `try` body, which leaves that
  `try` without an `except` clause, so Python rejects the file as written. The model follows the evident intent: the session step starts
  once the body has been read.

Inputs the source takes from its environment are parameters:

- The two `datetime.utcnow()` readings of a step are a `Clock`.
- The report is returned as a value instead of being posted.
- The session map is passed in and returned.

## Model

| member | source | states |
|---|---|---|
| Catalog.FullWeight | app.py:69-80 | the six category weights add up to the full score of 100 hundredths, so normalising by `max_score` divides by one |
| Catalog.PatternsOf | app.py:32-61 | a trigger belongs to the catalog list exactly when it belongs to one of the category lists |
| Score.CategoryPoints | app.py:78-85 | the category points never exceed the total weight of the categories walked |
| Score.ScamScore | app.py:87-96 | the score, bonuses included, is clamped to at most 100 |
| Score.IsScam | app.py:98-101 | a message is a scam exactly when its category points plus bonuses reach the threshold of 30, whether or not the clamp applies |
| Score.FirstTriggerFound | app.py:82-85 | the pattern loop that breaks on the first hit reports a hit exactly when some trigger of the category occurs |
| Score.WalkCategories | app.py:78-85 | the category loop accumulates exactly the weights of the hit categories and, as `max_score`, the full weight |
| Score.CalculateScamScore | app.py:63-96 | the imperative score computation, including the division by `max_score`, yields the reference score |
| Score.PointsAreHitWeights | app.py:78-85 | the points are the weight sum of exactly the categories with at least one trigger in the message |
| Score.SameSignalsSameScore | app.py:63-96 | two messages hitting the same categories and triggering the same bonuses get the same score |
| Score.NoSignalNoScam | app.py:63-101 | a message with no trigger, link or phone number scores 0 and is not a scam |
| Score.OneCategoryIsNotEnough | app.py:69-101 | triggers from one category alone, without a link or phone number, never reach the threshold |
| Score.ThreeHitsEarnSixty | app.py:63-90 | urgency, a threat and a request for personal details together earn at least 60 hundredths |
| Score.ThreatWithPhoneIsScam | app.py:37-101 | a threat word plus a phone number always reaches the threshold |
| Score.SuspiciousKeywords | app.py:103-113 | the keyword list has at most ten entries, no repeats, and only catalog triggers that occur in the lower-cased message |
| Score.KeywordsAreAllOrTen | app.py:113 | the keyword list has as many entries as distinct triggers occur, capped at ten, and lists them all when at most ten occur |
| Score.OccurringTriggers | app.py:108-111 | the collected triggers are exactly the catalog entries that occur in the message |
| Score.Dedup | app.py:113 | deduplication keeps every value and repeats none |
| Text.Lower | app.py:65 | lower-casing never shortens the text and leaves no ASCII capital |
| Text.LowerMapsEachChar | app.py:65 | on a text without the Kelvin sign or the dotted capital I, lower-casing keeps the length and turns each capital A–Z into its small letter, keeping every other character |
| Text.LowerAppend | app.py:65 | the modelled lower-casing, a fold over characters, distributes over concatenation; it differs from Python's only on characters it keeps unchanged, which cannot make an ASCII trigger appear or vanish |
| Text.LowerFixesExactlyPlain | app.py:65 | lower-casing leaves a text unchanged exactly when none of its characters is one that lower-casing changes |
| Text.Contains | app.py:83 | a literal pattern is found exactly when it occurs at some position |
| Regex.RunEnd | app.py:132 | a character-class run stops at the first character outside the class |
| Regex.BacktrackDigits | app.py:147 | the digit run backs off to the longest length of at least nine that ends on a word boundary, and fails only when no such length exists |
| Regex.FindAllMatched | app.py:132 | every string `findall` returns is the text of a match starting at or after the scan position |
| Regex.ScanSkips | app.py:132 | the scan passes over a stretch of positions where no match starts without emitting anything |
| Regex.FindAllEmpty | app.py:132-133 | `findall` returns nothing exactly when no position matches |
| Regex.SearchIffFound | app.py:90-94 | `re.search` succeeds exactly when `re.findall` would return something |
| Regex.FoundAreSubstrings | app.py:132 | each found string occurs in the message |
| RegexFacts.PhoneMatchShape | app.py:93 | a phone match starts with a digit or `+`, ends with a digit, holds only digits, `+` and separators, and has at least ten digits |
| RegexFacts.UrlMatchShape | app.py:142 | a link match is `http://` or `https://` followed by link characters, and is cut only where a non-link character follows |
| RegexFacts.UpiMatchShape | app.py:137 | a UPI match is a local part, one `@`, and a provider made of letters, not followed by a word character |
| RegexFacts.AccountMatchIff | app.py:147 | an account-number match from a position is exactly a whole word token of 9 to 18 digits |
| RegexFacts.IfscMatchIff | app.py:149 | an IFSC match from a position is exactly a whole word token of four capitals, `0` and six capitals or digits |
| RegexFacts.FindAllTokens | app.py:147-149 | scanning for account numbers or IFSC codes finds exactly the shaped whole word tokens after the scan position |
| Extraction.ExtractIntelligence | app.py:121-153 | extraction leaves the keyword family empty; the keywords come from the scorer |
| Extraction.BankAccountsAreTokens | app.py:146-151 | the bank family holds exactly the whole word tokens that are 9–18 digits or IFSC-shaped |
| Extraction.PhoneNumbersAreShaped | app.py:131-134 | every extracted phone number occurs in the message and has the phone shape, separators kept |
| Extraction.LinksAreShaped | app.py:141-144 | every extracted link occurs in the message and has the link shape |
| Extraction.UpiIdsAreShaped | app.py:136-139 | every extracted UPI handle occurs in the message and has the handle shape |
| Planner.PlannerFollowsPolicy | app.py:155-202 | the reply is the first rule of the turn's table whose word list occurs in the message, else the turn's fallback |
| Planner.FirstMatch | app.py:161-191 | the chosen reply is the one of the first matching rule, and the fallback when none matches |
| Planner.CredentialsAtTurnThree | app.py:183-184 | the third turn always asks for company details and employee ID, whatever the message |
| Planner.StallingFromTurnFive | app.py:193-202 | from turn five the stalling replies are used in order and the last one repeats from turn nine on |
| Planner.HistoryIgnored | app.py:155-202 | the conversation history never changes the reply |
| Planner.ReplyFromRepertoire | app.py:155-202 | every reply is one of the planner's fixed sentences |
| Sessions.StepFailures | app.py:318-330 | a request fails exactly when the session id, the message object or its text is missing or empty, with the first missing piece naming the error |
| Sessions.DormantStep | app.py:409-415 | a step that does not engage still stores its session (a fresh one when the id is new, lines 338-352) unchanged, answers neutrally and reports nothing |
| Sessions.EngagedStep | app.py:356-395 | an engaged step flags the session, counts one turn, appends exactly the scammer's message and the reply to the log, answers with the planner's reply for the new turn, and rewrites the notes for the new counts |
| Sessions.CommitFacts | app.py:358-399 | committing changes only the session's own entry, logs the two messages after the old log, and reports from the third turn on |
| Sessions.StepTouchesOnlyItsSession | app.py:337-399 | the new store is the old one with only the requesting session's entry overwritten |
| Sessions.ScamFlagMonotone | app.py:357-358 | a session flagged as a scam stays flagged |
| Sessions.EngagedIntelGrows | app.py:368-378 | after an engaged step every intelligence family is exactly its old values plus this message's findings, and the keywords exactly the old ones plus this message's suspicious keywords |
| Sessions.ReportRule | app.py:397-399 | a report goes out exactly on engaged steps reaching turn three or later, and carries the session id, the turn count, the intelligence and the notes after the step |
| Sessions.EngagedReplyIsNotNeutral | app.py:381-415 | an engaged step's reply is never the neutral acknowledgement |
| Sessions.PlannedReplyIsNotNeutral | app.py:155-202 | the planner never produces the neutral acknowledgement |
| Sessions.NotesTellTurnsApart | app.py:394-395 | notes written for different turn counts differ, whatever the counts of findings |
| Sessions.AdvanceKeepsInvariant | app.py:358-395 | logging a scammer message and a reply, counting the turn and rewriting the notes keeps the session invariant |
| Sessions.StoredSessionKeepsInvariant | app.py:337-399 | the session a step stores keeps its id and the invariant |
| Sessions.StepPreservesWellFormed | app.py:334-415 | every session in the store sits under its own id, has two log entries per turn alternating scammer and agent, is flagged exactly when it has engaged, and has notes that match its counts; every step keeps this |
| Sessions.ReportCountsTurns | app.py:230-236 | in a well-formed store an engaged step reaching the third turn sends a report for its session whose message count is the turn count, half the logged messages |
| Sessions.NextTurn | app.py:357-399 | an engaged text-only request counts one more turn and reports exactly when the new turn is the third or later |
| Sessions.ThreeEngagedTurns | app.py:334-399 | a new session whose first message is a scam goes through turns 1, 2 and 3 and reports only on the third |
| Scenarios.EmailYieldsCutHandle | app.py:136-139 | in an e-mail address whose provider continues with a hyphen, the UPI pattern reports the address cut at the hyphen, `rajesh.kumar@sbi` |
| Scenarios.SpellingsAreNotMerged | app.py:131-134 | a number written bare and with dashes is reported twice, once per spelling |
| Scenarios.AlertIsScam | app.py:63-101 | the urgent-account message scores at least 80 hundredths and is a scam |
| Scenarios.AlertArtifacts | app.py:131-144 | from the urgent-account message the extractor reports exactly one link, with its trailing comma, and exactly one phone number |

## Left out

- The `/health` and `/api/session/<session_id>` endpoints are read-only views and are not modelled.
- HTTP transport is not modelled: Flask routing, CORS, the API-key check and its 401 reply, the probe reply to a request without a JSON body, the 500 handler and the JSON encoding of replies.
- The report is a value; the POST to the reporting endpoint, its timeout and its error handling are I/O.
- Logging is left out.
- Timestamps are opaque strings; the clock readings come in as a parameter.
- Concurrency is left out: requests are modelled one at a time against the session map.
- Score.IsScam: `is_scam` takes a `threshold` argument defaulting to 0.3; the model fixes it at 30 hundredths, the default, which is what its only caller in `analyze_message` uses.
- Floating point: scores are integer hundredths. Classification is exact: for every combination of hits and bonuses the float score reaches 0.3 exactly when the integer score reaches 30. The float `calculate_scam_score` returns may differ from the hundredths divided by 100 in the last place; for example urgency, threats and financial add up to 0.6000000000000001.
- `\d` and `\w` (and so `\b`) are modelled on ASCII; Python also accepts non-ASCII digits and letters there.
- Non-ASCII lower-casing beyond the two characters that fold into ASCII is not modelled, including the context rule for capital sigma that makes Python's `str.lower` depend on neighbouring characters; none of it can change whether an ASCII trigger occurs.
- JSON values that are not strings (a numeric `sessionId`, a nested `text`) are not modelled; the request carries strings only and absent fields read as empty.
- Score.SuspiciousKeywords: when more than ten distinct triggers occur, Python keeps ten in its set iteration order, which depends on string hashing; the model keeps the first ten in catalog order, and its contracts state only what holds for any choice.
- Extraction.ExtractIntelligence: Python returns lists built from sets in unspecified order; the model returns the sets.
- `demo.py` and `test_api.py` are clients of the service and are not part of this model.
- `generate_response` with a negative turn cannot be called: the turn is a natural number. Turn 0 follows Python's negative indexing and gives the first stalling reply.
