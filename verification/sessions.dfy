/**
 * The per-session state machine inside `analyze_message`: validate the
 * request, look up or create the session, and either stay dormant with a
 * neutral reply or engage: log the message, count the turn, merge the
 * intelligence, plan a reply, log it, rewrite the notes, and from the third
 * turn on hand the case to the reporting endpoint.
 */
module Sessions {
  import opened Wrappers
  import opened Text
  import opened Score
  import opened Extraction
  import opened Planner

  datatype Sender = Scammer | User

  /** One logged message; timestamps are opaque strings. */
  datatype Entry = Entry(sender: Sender, text: string, timestamp: string)

  datatype Session = Session(
    sessionId: string,
    messages: seq<Entry>,
    intel: Intel,
    turnNumber: nat,
    isScam: bool,
    agentNotes: string)

  /** The process-wide session map, keyed by session id. */
  type Store = map<string, Session>

  /** What the endpoint reads from a request body: the session id (empty
      when absent), the message object's string fields (empty when absent)
      and the conversation history, which is passed on and never read. */
  datatype Request = Request(
    sessionId: string,
    message: map<string, string>,
    conversationHistory: seq<map<string, string>>)

  datatype RequestError = MissingSessionOrMessage | MissingText

  /** The two clock readings a step may take: when the message is logged
      without a timestamp of its own, and when the reply is logged. */
  datatype Clock = Clock(atReceipt: string, atReply: string)

  /** The payload sent to the reporting endpoint. */
  datatype Report = Report(
    sessionId: string,
    scamDetected: bool,
    totalMessagesExchanged: nat,
    extractedIntelligence: Intel,
    agentNotes: string)

  /** A step's result: the new store, the reply, and the report sent, if any. */
  datatype Outcome = Outcome(store: Store, reply: string, callback: Option<Report>)

  const NeutralReply: string := "Thank you for your message."

  /** The turn from which every engaged step sends a report. */
  const ReportTurn: nat := 3

  function NewSession(id: string): Session {
    Session(id, [], NoIntel, 0, false, "")
  }

  /** The notes line: turns so far and counts of phone numbers, UPI IDs and links. */
  function Notes(turnNumber: nat, intel: Intel): string {
    "Engaged scammer for " + (NatToString(turnNumber) + NotesTail(intel))
  }

  /** The notes line after the turn count. */
  function NotesTail(intel: Intel): string {
    " turns. Extracted "
    + NatToString(|intel.phoneNumbers|) + " phone numbers, "
    + NatToString(|intel.upiIds|) + " UPI IDs, "
    + NatToString(|intel.phishingLinks|) + " links."
  }

  /** Add one message's findings and keywords to the session's intelligence,
      family by family. */
  function MergeIntel(prior: Intel, found: Intel, keywords: seq<string>): Intel {
    Intel(
      prior.phoneNumbers + found.phoneNumbers,
      prior.upiIds + found.upiIds,
      prior.phishingLinks + found.phishingLinks,
      prior.bankAccounts + found.bankAccounts,
      prior.suspiciousKeywords + found.suspiciousKeywords + set k | k in keywords)
  }

  /** `send_final_result_to_guvi`'s payload for a session. */
  function ReportOf(s: Session): Report {
    Report(s.sessionId, true, s.turnNumber, s.intel, s.agentNotes)
  }

  /** The `text` field of the message, empty when absent. */
  function TextOf(req: Request): string {
    if "text" in req.message then req.message["text"] else ""
  }

  /** The request passes validation: a session id, a non-empty message
      object, and a non-empty text in it. */
  predicate Accepted(req: Request) {
    req.sessionId != "" && |req.message| > 0 && TextOf(req) != ""
  }

  /** The bookkeeping of an engaged step once the findings and the reply are
      known: flag, log both messages, count the turn, rewrite the notes. */
  function Advance(s: Session, incoming: Entry, outgoing: Entry, intel: Intel): Session {
    var turn := s.turnNumber + 1;
    s.(
      isScam := true,
      messages := s.messages + [incoming, outgoing],
      turnNumber := turn,
      intel := intel,
      agentNotes := Notes(turn, intel))
  }

  /** The end of the engaged path: store the advanced session, answer with
      the logged reply, and from the third turn on report the session. */
  function Commit(store: Store, id: string, s: Session, incoming: Entry, outgoing: Entry, intel: Intel): Outcome {
    var s' := Advance(s, incoming, outgoing, intel);
    Outcome(store[id := s'], outgoing.text, if s'.turnNumber >= ReportTurn then Some(ReportOf(s')) else None)
  }

  /** When the message was received: its own timestamp, else the clock. */
  function ReceivedAt(req: Request, clock: Clock): string {
    if "timestamp" in req.message then req.message["timestamp"] else clock.atReceipt
  }

  /** The session a request works on: the stored one, or a fresh one. */
  function Lookup(store: Store, id: string): Session {
    if id in store then store[id] else NewSession(id)
  }

  /** One call of `analyze_message` past authentication. */
  function Step(store: Store, req: Request, clock: Clock): Result<Outcome, RequestError> {
    if req.sessionId == "" || |req.message| == 0 then Failure(MissingSessionOrMessage)
    else if TextOf(req) == "" then Failure(MissingText)
    else
      var text := TextOf(req);
      var id := req.sessionId;
      var s := Lookup(store, id);
      if IsScam(text) || s.isScam then
        Success(Commit(store, id, s, Entry(Scammer, text, ReceivedAt(req, clock)),
                       Entry(User, GenerateResponse(text, s.turnNumber + 1, req.conversationHistory), clock.atReply),
                       MergeIntel(s.intel, ExtractIntelligence(text), SuspiciousKeywords(text))))
      else
        Success(Outcome(store[id := s], NeutralReply, None))
  }

  /** The step engages: the message is a scam or the session already is. */
  predicate Engaged(store: Store, req: Request) {
    IsScam(TextOf(req)) || Lookup(store, req.sessionId).isScam
  }

  // ---------------------------------------------------------------- the engaged path

  /** What committing an engaged step does: only the session's own entry
      changes; the session counts one more turn, is flagged, logs exactly the
      two entries after its old log and describes itself in its notes; the
      answer is the logged reply; a report of the new session goes out
      exactly from the third turn on. */
  lemma CommitFacts(store: Store, id: string, s: Session, incoming: Entry, outgoing: Entry, intel: Intel)
    ensures var o := Commit(store, id, s, incoming, outgoing, intel);
            var s' := o.store[id];
            && o.store == store[id := s']
            && s'.sessionId == s.sessionId && s'.isScam && s'.intel == intel
            && s'.turnNumber == s.turnNumber + 1
            && |s'.messages| == |s.messages| + 2
            && s'.messages[..|s.messages|] == s.messages
            && s'.messages[|s.messages|] == incoming
            && s'.messages[|s.messages| + 1] == outgoing
            && s'.agentNotes == Notes(s'.turnNumber, s'.intel)
            && o.reply == outgoing.text
            && (o.callback.Some? <==> s'.turnNumber >= ReportTurn)
            && (o.callback.Some? ==> o.callback.value == ReportOf(s'))
  {
    var s' := Advance(s, incoming, outgoing, intel);
    assert s'.messages[..|s.messages|] == s.messages;
  }

  /** An engaged step is a commit of the message as received, the planner's
      reply for the next turn, and the session's intelligence merged with
      this message's findings and keywords. */
  lemma EngagedIsCommit(store: Store, req: Request, clock: Clock)
    returns (incoming: Entry, outgoing: Entry, intel: Intel)
    requires Accepted(req) && Engaged(store, req)
    ensures var s := Lookup(store, req.sessionId);
            && Step(store, req, clock).value == Commit(store, req.sessionId, s, incoming, outgoing, intel)
            && incoming == Entry(Scammer, TextOf(req), ReceivedAt(req, clock))
            && outgoing == Entry(User, GenerateResponse(TextOf(req), s.turnNumber + 1, req.conversationHistory), clock.atReply)
            && intel == MergeIntel(s.intel, ExtractIntelligence(TextOf(req)), SuspiciousKeywords(TextOf(req)))
  {
    var s := Lookup(store, req.sessionId);
    var text := TextOf(req);
    incoming := Entry(Scammer, text, ReceivedAt(req, clock));
    outgoing := Entry(User, GenerateResponse(text, s.turnNumber + 1, req.conversationHistory), clock.atReply);
    intel := MergeIntel(s.intel, ExtractIntelligence(text), SuspiciousKeywords(text));
  }

  // ---------------------------------------------------------------- properties of one step

  /** A request fails exactly when the session id, the message object or its
      text is missing or empty, and the first missing piece names the error. */
  lemma StepFailures(store: Store, req: Request, clock: Clock)
    ensures Step(store, req, clock).Success? <==> Accepted(req)
    ensures req.sessionId == "" || |req.message| == 0
            ==> Step(store, req, clock) == Failure(MissingSessionOrMessage)
    ensures req.sessionId != "" && |req.message| > 0 && TextOf(req) == ""
            ==> Step(store, req, clock) == Failure(MissingText)
  {
  }

  /** A dormant step answers neutrally, sends no report, and stores the
      session as it was (or a fresh one). */
  lemma DormantStep(store: Store, req: Request, clock: Clock)
    requires Step(store, req, clock).Success? && !Engaged(store, req)
    ensures Step(store, req, clock)
            == Success(Outcome(store[req.sessionId := Lookup(store, req.sessionId)], NeutralReply, None))
  {
  }

  /** An engaged step flags the session, counts exactly one turn, and logs
      exactly two messages after the old log: the scammer's message, then the
      planner's reply for the new turn, which is also what it answers. */
  lemma EngagedStep(store: Store, req: Request, clock: Clock)
    requires Accepted(req) && Engaged(store, req)
    ensures var s := Lookup(store, req.sessionId);
            var o := Step(store, req, clock).value;
            var s' := o.store[req.sessionId];
            && s'.isScam
            && s'.turnNumber == s.turnNumber + 1
            && |s'.messages| == |s.messages| + 2
            && s'.messages[..|s.messages|] == s.messages
            && s'.messages[|s.messages|] == Entry(Scammer, TextOf(req), ReceivedAt(req, clock))
            && s'.messages[|s.messages| + 1] == Entry(User, o.reply, clock.atReply)
            && o.reply == GenerateResponse(TextOf(req), s'.turnNumber, req.conversationHistory)
            && s'.agentNotes == Notes(s'.turnNumber, s'.intel)
  {
    var incoming, outgoing, intel := EngagedIsCommit(store, req, clock);
    CommitFacts(store, req.sessionId, Lookup(store, req.sessionId), incoming, outgoing, intel);
  }

  /** A step stores its session, even a dormant one, and leaves every other
      session as it was: the new store is the old one with that one entry
      overwritten. */
  lemma StepTouchesOnlyItsSession(store: Store, req: Request, clock: Clock)
    requires Step(store, req, clock).Success?
    ensures req.sessionId in Step(store, req, clock).value.store
    ensures Step(store, req, clock).value.store
            == store[req.sessionId := Step(store, req, clock).value.store[req.sessionId]]
  {
    if Engaged(store, req) {
      var incoming, outgoing, intel := EngagedIsCommit(store, req, clock);
      CommitFacts(store, req.sessionId, Lookup(store, req.sessionId), incoming, outgoing, intel);
    } else {
      DormantStep(store, req, clock);
    }
  }

  /** Once a session is flagged as a scam it stays flagged. */
  lemma ScamFlagMonotone(store: Store, req: Request, clock: Clock)
    requires Step(store, req, clock).Success?
    ensures forall k :: k in store && store[k].isScam ==>
              k in Step(store, req, clock).value.store && Step(store, req, clock).value.store[k].isScam
  {
    StepTouchesOnlyItsSession(store, req, clock);
    if Engaged(store, req) {
      EngagedStep(store, req, clock);
    } else {
      DormantStep(store, req, clock);
    }
  }

  /** After an engaged step every intelligence family is exactly what it
      held before plus what this message yielded, and the keywords are
      exactly the old ones plus this message's suspicious keywords. */
  lemma EngagedIntelGrows(store: Store, req: Request, clock: Clock)
    requires Accepted(req) && Engaged(store, req)
    ensures var prior := Lookup(store, req.sessionId).intel;
            var found := ExtractIntelligence(TextOf(req));
            var after := Step(store, req, clock).value.store[req.sessionId].intel;
            && after.phoneNumbers == prior.phoneNumbers + found.phoneNumbers
            && after.upiIds == prior.upiIds + found.upiIds
            && after.phishingLinks == prior.phishingLinks + found.phishingLinks
            && after.bankAccounts == prior.bankAccounts + found.bankAccounts
            && after.suspiciousKeywords == prior.suspiciousKeywords + set k | k in SuspiciousKeywords(TextOf(req))
  {
    var incoming, outgoing, intel := EngagedIsCommit(store, req, clock);
    CommitFacts(store, req.sessionId, Lookup(store, req.sessionId), incoming, outgoing, intel);
  }

  /** A report goes out on every engaged step whose new turn is at least the
      third, not only the first such step, and carries the session as it is
      after the step. */
  lemma ReportRule(store: Store, req: Request, clock: Clock)
    requires Step(store, req, clock).Success?
    ensures var o := Step(store, req, clock).value;
            var s' := o.store[req.sessionId];
            && (o.callback.Some? <==> Engaged(store, req) && s'.turnNumber >= ReportTurn)
            && (o.callback.Some? ==>
                  o.callback.value == Report(s'.sessionId, true, s'.turnNumber, s'.intel, s'.agentNotes))
  {
    if Engaged(store, req) {
      var incoming, outgoing, intel := EngagedIsCommit(store, req, clock);
      CommitFacts(store, req.sessionId, Lookup(store, req.sessionId), incoming, outgoing, intel);
    } else {
      DormantStep(store, req, clock);
    }
  }

  /** The reply tells the two paths apart: an engaged step never answers
      with the neutral acknowledgement. */
  lemma EngagedReplyIsNotNeutral(store: Store, req: Request, clock: Clock)
    requires Accepted(req) && Engaged(store, req)
    ensures Step(store, req, clock).value.reply != NeutralReply
  {
    EngagedStep(store, req, clock);
    var s' := Step(store, req, clock).value.store[req.sessionId];
    PlannedReplyIsNotNeutral(TextOf(req), s'.turnNumber, req.conversationHistory);
  }

  /** The planner never produces the neutral acknowledgement. */
  lemma PlannedReplyIsNotNeutral<H>(message: string, turnNumber: nat, history: seq<H>)
    ensures GenerateResponse(message, turnNumber, history) != NeutralReply
  {
    ReplyFromRepertoire(message, turnNumber, history);
    assert NeutralReply !in Replies;
  }

  // ---------------------------------------------------------------- the store invariant

  /** What every stored session satisfies: two logged messages per turn,
      scammer then agent; flagged exactly when it has engaged; nothing
      gathered while dormant; notes that describe the current turn and
      findings once engaged. */
  predicate SessionInvariant(s: Session) {
    && |s.messages| == 2 * s.turnNumber
    && (forall i :: 0 <= i < |s.messages| ==> s.messages[i].sender == (if i % 2 == 0 then Scammer else User))
    && (s.isScam <==> s.turnNumber > 0)
    && (s.turnNumber == 0 ==> s.intel == NoIntel && s.agentNotes == "")
    && (s.turnNumber > 0 ==> s.agentNotes == Notes(s.turnNumber, s.intel))
  }

  /** The notes tell turn counts apart: notes written for different turn
      counts differ, whatever the findings. */
  lemma NotesTellTurnsApart(m: nat, a: Intel, n: nat, b: Intel)
    requires Notes(m, a) == Notes(n, b)
    ensures m == n
  {
    var lead := "Engaged scammer for ";
    assert NatToString(m) + NotesTail(a) == Notes(m, a)[|lead|..];
    assert NatToString(n) + NotesTail(b) == Notes(n, b)[|lead|..];
    DigitsUpToSpace(NatToString(m), NotesTail(a), NatToString(n), NotesTail(b));
    NatToStringInjective(m, n);
  }

  /** Every session is stored under its own id and keeps the invariant. */
  predicate WellFormed(store: Store) {
    forall k :: k in store ==> store[k].sessionId == k && SessionInvariant(store[k])
  }

  /** Logging a scammer message and an agent reply keeps the invariant. */
  lemma AdvanceKeepsInvariant(s: Session, incoming: Entry, outgoing: Entry, intel: Intel)
    requires SessionInvariant(s)
    requires incoming.sender == Scammer && outgoing.sender == User
    ensures SessionInvariant(Advance(s, incoming, outgoing, intel))
    ensures Advance(s, incoming, outgoing, intel).sessionId == s.sessionId
  {
    var s' := Advance(s, incoming, outgoing, intel);
    var n := |s.messages|;
    forall i | 0 <= i < |s'.messages|
      ensures s'.messages[i].sender == (if i % 2 == 0 then Scammer else User)
    {
      if i < n {
        assert s'.messages[i] == s.messages[i];
      } else if i == n {
        assert i % 2 == 0;
      } else {
        assert i == n + 1 && i % 2 == 1;
      }
    }
  }

  /** The session a step stores keeps the invariant and its id. */
  lemma StoredSessionKeepsInvariant(store: Store, req: Request, clock: Clock)
    requires WellFormed(store) && Step(store, req, clock).Success?
    ensures SessionInvariant(Step(store, req, clock).value.store[req.sessionId])
    ensures Step(store, req, clock).value.store[req.sessionId].sessionId == req.sessionId
  {
    var s := Lookup(store, req.sessionId);
    if Engaged(store, req) {
      var incoming, outgoing, intel := EngagedIsCommit(store, req, clock);
      AdvanceKeepsInvariant(s, incoming, outgoing, intel);
    } else {
      DormantStep(store, req, clock);
    }
  }

  /** Every step keeps the store well formed. */
  lemma StepPreservesWellFormed(store: Store, req: Request, clock: Clock)
    requires WellFormed(store) && Step(store, req, clock).Success?
    ensures WellFormed(Step(store, req, clock).value.store)
  {
    StoredSessionKeepsInvariant(store, req, clock);
    StepTouchesOnlyItsSession(store, req, clock);
  }

  /** An engaged step reaching the third turn sends a report of its own
      session, and in a well-formed store the report counts turns, which is
      half the messages logged for the session. */
  lemma ReportCountsTurns(store: Store, req: Request, clock: Clock)
    requires WellFormed(store) && Accepted(req) && Engaged(store, req)
    requires Lookup(store, req.sessionId).turnNumber + 1 >= ReportTurn
    ensures var o := Step(store, req, clock).value;
            && o.callback.Some?
            && o.callback.value.sessionId == req.sessionId
            && o.callback.value.totalMessagesExchanged * 2 == |o.store[req.sessionId].messages|
  {
    StepPreservesWellFormed(store, req, clock);
    ReportRule(store, req, clock);
  }

  // ---------------------------------------------------------------- a conversation

  /** A request carrying only a text. */
  function TextRequest(id: string, text: string): Request {
    Request(id, map["text" := text], [])
  }

  /** An engaged step on a text-only request counts one more turn, keeps
      the session flagged, and reports exactly when the new turn is at
      least the third. */
  lemma NextTurn(store: Store, id: string, text: string, clock: Clock) returns (o: Outcome)
    requires id != "" && text != ""
    requires IsScam(text) || Lookup(store, id).isScam
    ensures Step(store, TextRequest(id, text), clock) == Success(o)
    ensures id in o.store && o.store[id].isScam
    ensures o.store[id].turnNumber == Lookup(store, id).turnNumber + 1
    ensures o.callback.Some? <==> o.store[id].turnNumber >= ReportTurn
  {
    var q := TextRequest(id, text);
    assert TextOf(q) == text;
    var incoming, outgoing, intel := EngagedIsCommit(store, q, clock);
    CommitFacts(store, id, Lookup(store, id), incoming, outgoing, intel);
    o := Step(store, q, clock).value;
  }

  /** Three messages on a new session, the first a scam: the turns count
      1, 2, 3, and only the third step sends a report. */
  lemma ThreeEngagedTurns(id: string, t1: string, t2: string, t3: string, c1: Clock, c2: Clock, c3: Clock)
    returns (o1: Outcome, o2: Outcome, o3: Outcome)
    requires id != "" && t1 != "" && t2 != "" && t3 != ""
    requires IsScam(t1)
    ensures Step(map[], TextRequest(id, t1), c1) == Success(o1)
    ensures Step(o1.store, TextRequest(id, t2), c2) == Success(o2)
    ensures Step(o2.store, TextRequest(id, t3), c3) == Success(o3)
    ensures id in o1.store && o1.store[id].turnNumber == 1 && o1.callback == None
    ensures id in o2.store && o2.store[id].turnNumber == 2 && o2.callback == None
    ensures id in o3.store && o3.store[id].turnNumber == 3 && o3.callback.Some?
  {
    o1 := NextTurn(map[], id, t1, c1);
    o2 := NextTurn(o1.store, id, t2, c2);
    o3 := NextTurn(o2.store, id, t3, c3);
  }
}
