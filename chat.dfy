/**
 * The chatbot's remote procedures: `sendMessage`, `getHistory`, `submitLead`
 * and the lead listing. Each procedure is one sequential step against the
 * store. The language model is an oracle `llm` from the prompt to a completion
 * or a thrown value; JSON serialisation of a structured reply is the
 * parameter `stringify`; the email syntax check is the parameter `isEmail`.
 *
 * Every procedure has a specification function over the store's tables
 * (`...Spec`, taking `up`: whether the store's handle is set once the
 * procedure has asked for it), a method that runs the procedure step by step
 * against a `Database` and is proved equal to it, and lemmas about the
 * specification.
 */
module Chat {
  import opened Wrappers
  import opened Schema
  import opened Query
  import opened Store

  // ---------------------------------------------------------------------------
  // Prompt assembly

  /** The fixed instruction that opens every prompt. */
  const SystemPrompt: string :=
    "You are a helpful AI assistant for Agri Brazil Success, an agricultural investment platform. \n" +
    "Your role is to:\n" +
    "1. Help potential investors understand our services and investment opportunities\n" +
    "2. Qualify leads by asking about their investment interests, budget, and timeline\n" +
    "3. Provide information about grain market trends, risk management, and sustainability initiatives\n" +
    "4. Be professional, friendly, and informative\n" +
    "\n" +
    "When you have gathered enough information (name, email, investment type, budget, timeline), \n" +
    "summarize what you've learned and ask if they would like to proceed with a consultation.\n" +
    "\n" +
    "Keep responses concise and focused on the conversation."

  /** Who speaks a prompt turn: the system, or the role a stored message was written under. */
  datatype TurnRole = System | Speaker(role: MessageRole)

  datatype Turn = Turn(role: TurnRole, content: string)

  /**
   * The prompt for `message` after `history`: the system instruction, then
   * every stored message in order with its role and content, then the new
   * user message.
   */
  function BuildPrompt(history: seq<MessageRow>, message: string): (p: seq<Turn>)
    ensures |p| == |history| + 2
    ensures p[0] == Turn(System, SystemPrompt)
    ensures forall i :: 0 <= i < |history| ==> p[i + 1] == Turn(Speaker(history[i].role), history[i].content)
    ensures p[|p| - 1] == Turn(Speaker(MessageRole.User), message)
    ensures forall i :: 0 < i < |p| ==> p[i].role != System
  {
    [Turn(System, SystemPrompt)]
      + seq(|history|, i requires 0 <= i < |history| => Turn(Speaker(history[i].role), history[i].content))
      + [Turn(Speaker(MessageRole.User), message)]
  }

  // ---------------------------------------------------------------------------
  // The model's reply

  /** One element of a structured reply; its inner shape belongs to the gateway. */
  datatype ContentPart = ContentPart(kind: string, payload: string)

  /** A reply's content: plain text, or a structured list of parts. */
  datatype Content = PlainText(text: string) | Structured(parts: seq<ContentPart>)

  datatype ChoiceMessage = ChoiceMessage(content: Option<Content>)
  datatype Choice = Choice(message: Option<ChoiceMessage>)
  datatype Completion = Completion(choices: seq<Choice>)

  /** What a `catch` receives: an `Error` with its message, or some other thrown value. */
  datatype Thrown = ErrorValue(message: string) | NonError

  /** What the model call does: complete, or throw. */
  datatype LlmOutcome = Completed(completion: Completion) | Threw(thrown: Thrown)

  const ReplyFallback: string := "I apologize, I could not process that. Please try again."

  /** The content of the first choice's message, when every step of that path is present. */
  function ReplyContent(c: Completion): (r: Option<Content>)
    ensures r.Some? <==> |c.choices| > 0 && c.choices[0].message.Some? && c.choices[0].message.value.content.Some?
    ensures r.Some? ==> r == c.choices[0].message.value.content
  {
    if |c.choices| == 0 then None
    else match c.choices[0].message
      case None => None
      case Some(m) => m.content
  }

  /**
   * The assistant's text: the reply's own text when it is non-empty, the
   * serialised parts when it is structured, and the fallback apology when it
   * is missing or empty.
   */
  function ReplyText(c: Completion, stringify: seq<ContentPart> -> string): (text: string)
    ensures ReplyContent(c).None? ==> text == ReplyFallback
    ensures ReplyContent(c) == Some(PlainText("")) ==> text == ReplyFallback
    ensures ReplyContent(c).Some? && ReplyContent(c).value.PlainText? && ReplyContent(c).value.text != "" ==>
      text == ReplyContent(c).value.text
    ensures ReplyContent(c).Some? && ReplyContent(c).value.Structured? ==>
      text == stringify(ReplyContent(c).value.parts)
    ensures text == "" ==> ReplyContent(c).Some? && ReplyContent(c).value.Structured?
  {
    match ReplyContent(c)
    case None => ReplyFallback
    case Some(PlainText(s)) => if s == "" then ReplyFallback else s
    case Some(Structured(parts)) => stringify(parts)
  }

  // ---------------------------------------------------------------------------
  // sendMessage

  datatype SendResult = SendResult(success: bool, response: string, conversationId: Option<nat>, error: Option<string>)

  const SendFailure: string := "I encountered an error. Please try again later."
  const ConversationMissing: string := "Failed to create conversation"
  const UnknownError: string := "Unknown error"

  /** The message of a caught value, or `otherwise` when it is not an `Error`. */
  function ErrorText(e: Thrown, otherwise: string): (r: string)
    ensures e.ErrorValue? ==> r == e.message
    ensures e.NonError? ==> r == otherwise
  {
    match e
    case ErrorValue(m) => m
    case NonError => otherwise
  }

  /** The tagged result every caught failure of `sendMessage` becomes. */
  function SendFailed(e: Thrown): (r: SendResult)
    ensures !r.success && r.response == SendFailure && r.conversationId.None?
    ensures e.ErrorValue? ==> r.error == Some(e.message)
    ensures e.NonError? ==> r.error == Some(UnknownError)
  {
    SendResult(false, SendFailure, None, Some(ErrorText(e, UnknownError)))
  }

  /** The conversation `sendMessage` creates for a session without one. */
  function SessionConversation(sessionId: string): NewConversation {
    NewConversation(sessionId, Unset, Unset, Set(Active))
  }

  /** The row that insert creates in `t`. */
  function SessionConversationRow(t: Tables, sessionId: string): (c: ConversationRow)
    ensures c.sessionId == sessionId && c.status == Some(Active) && c.leadId.None? && c.userId.None?
    ensures c.id == t.nextConversationId && c.createdAt == t.clock
  {
    ConversationRowOf(SessionConversation(sessionId), t.nextConversationId, t.clock)
  }

  /**
   * Get-or-create on a reachable store: the session's first conversation if
   * there is one, otherwise a new active conversation, read back from the
   * store after the insert.
   */
  function Resolve(t: Tables, sessionId: string): (r: (Tables, Option<ConversationRow>))
    ensures r.1.Some? && r.1.value.sessionId == sessionId && r.1.value.id in ConversationIds(r.0)
    ensures ConversationBySession(t, sessionId).Some? ==> r.0 == t && r.1 == ConversationBySession(t, sessionId)
    ensures ConversationBySession(t, sessionId).None? ==>
      r.0 == InsertConversation(t, SessionConversation(sessionId)) &&
      r.1 == Some(SessionConversationRow(t, sessionId))
    ensures ConversationBySession(r.0, sessionId) == r.1
  {
    var found := ConversationBySession(t, sessionId);
    if found.Some? then
      assert found.value in t.conversations;
      (t, found)
    else
      var t1 := InsertConversation(t, SessionConversation(sessionId));
      var row := SessionConversationRow(t, sessionId);
      FirstAppend(t.conversations, [row], BySession(sessionId));
      assert First([row], BySession(sessionId)) == Some(row);
      (t1, ConversationBySession(t1, sessionId))
  }

  /**
   * The rest of `sendMessage` once the conversation `id` is known: ask the
   * model with the stored history, then store the user message and the reply.
   */
  function Exchange(t: Tables, id: nat, message: string, llm: seq<Turn> -> LlmOutcome,
                    stringify: seq<ContentPart> -> string): (r: (Tables, SendResult))
    ensures r.0.conversations == t.conversations
    ensures r.1.success ==> r.1.conversationId == Some(id)
    ensures !r.1.success ==> r.1.response == SendFailure
  {
    match llm(BuildPrompt(MessagesOf(t, id), message))
    case Threw(e) => (t, SendFailed(e))
    case Completed(c) =>
      var reply := ReplyText(c, stringify);
      match InsertMessage(t, NewMessage(id, MessageRole.User, message))
      case Err(e) => (t, SendFailed(ErrorValue(e)))
      case Ok(t2) =>
        match InsertMessage(t2, NewMessage(id, Assistant, reply))
        case Err(e) => (t2, SendFailed(ErrorValue(e)))
        case Ok(t3) => (t3, SendResult(true, reply, Some(id), None))
  }

  /** `sendMessage` on tables `t`: the tables afterwards and the result. */
  function SendMessageSpec(up: bool, t: Tables, sessionId: string, message: string,
                           llm: seq<Turn> -> LlmOutcome, stringify: seq<ContentPart> -> string): (r: (Tables, SendResult))
    ensures !up ==> r == (t, SendFailed(ErrorValue(DatabaseUnavailable)))
    ensures r.1.success ==> up && r.1.conversationId.Some?
  {
    if !up then (t, SendFailed(ErrorValue(DatabaseUnavailable)))
    else
      var resolved := Resolve(t, sessionId);
      match resolved.1
      case None => (resolved.0, SendFailed(ErrorValue(ConversationMissing)))
      case Some(c) => Exchange(resolved.0, c.id, message, llm, stringify)
  }

  /** The prompt `sendMessage` sends on a reachable store. */
  function SentPrompt(t: Tables, sessionId: string, message: string): seq<Turn> {
    var resolved := Resolve(t, sessionId);
    BuildPrompt(MessagesOf(resolved.0, resolved.1.value.id), message)
  }

  /** The user message `sendMessage` stores. */
  function UserMessageRow(t: Tables, id: nat, message: string): MessageRow {
    MessageRow(t.nextMessageId, id, MessageRole.User, message, t.clock)
  }

  /** The assistant message `sendMessage` stores right after it. */
  function ReplyRow(t: Tables, id: nat, reply: string): MessageRow {
    MessageRow(t.nextMessageId + 1, id, Assistant, reply, t.clock)
  }

  /**
   * `sendMessage` succeeds exactly when the store is reachable and the model
   * answers; then the user message and the reply are the only messages added,
   * in that order, to the conversation the session resolves to, and the
   * response is the stored reply. Otherwise no message is stored and the
   * response is the fixed apology.
   */
  lemma SendOutcome(up: bool, t: Tables, sessionId: string, message: string,
                    llm: seq<Turn> -> LlmOutcome, stringify: seq<ContentPart> -> string)
    ensures var (t', r) := SendMessageSpec(up, t, sessionId, message, llm, stringify);
      && t'.leads == t.leads && t'.users == t.users && t'.clock == t.clock
      && (r.success <==> up && llm(SentPrompt(t, sessionId, message)).Completed?)
      && (!r.success ==> t'.messages == t.messages && r.response == SendFailure && r.conversationId.None?)
      && (r.success ==>
            var t1 := Resolve(t, sessionId).0;
            var id := Resolve(t, sessionId).1.value.id;
            && r.conversationId == Some(id)
            && r.response == ReplyText(llm(SentPrompt(t, sessionId, message)).completion, stringify)
            && t'.messages == t.messages + [UserMessageRow(t1, id, message), ReplyRow(t1, id, r.response)]
            && t'.conversations == t1.conversations)
  {
    if up {
      var resolved := Resolve(t, sessionId);
      var t1, id := resolved.0, resolved.1.value.id;
      assert t1.messages == t.messages;
      ExchangeOutcome(t1, id, message, llm, stringify);
    }
  }

  /**
   * Once the conversation `id` exists, the exchange succeeds exactly when the
   * model answers; it then appends the user message and the reply and
   * nothing else, and otherwise stores nothing. It never adds a conversation.
   */
  lemma ExchangeOutcome(t: Tables, id: nat, message: string,
                        llm: seq<Turn> -> LlmOutcome, stringify: seq<ContentPart> -> string)
    requires id in ConversationIds(t)
    ensures var (t', r) := Exchange(t, id, message, llm, stringify);
      var outcome := llm(BuildPrompt(MessagesOf(t, id), message));
      && t'.conversations == t.conversations
      && t'.leads == t.leads && t'.users == t.users && t'.clock == t.clock
      && (r.success <==> outcome.Completed?)
      && (!r.success ==> t'.messages == t.messages && r.response == SendFailure && r.conversationId.None?)
      && (r.success ==>
            && r.conversationId == Some(id)
            && r.response == ReplyText(outcome.completion, stringify)
            && t'.messages == t.messages + [UserMessageRow(t, id, message), ReplyRow(t, id, r.response)])
  {
  }

  /** `sendMessage` keeps every invariant of the store. */
  lemma SendKeepsWellFormed(up: bool, t: Tables, sessionId: string, message: string,
                            llm: seq<Turn> -> LlmOutcome, stringify: seq<ContentPart> -> string)
    requires WellFormed(t)
    ensures WellFormed(SendMessageSpec(up, t, sessionId, message, llm, stringify).0)
  {
    if up {
      var resolved := Resolve(t, sessionId);
      var t1, id := resolved.0, resolved.1.value.id;
      assert WellFormed(t1);
      match llm(BuildPrompt(MessagesOf(t1, id), message))
      case Threw(e) =>
      case Completed(c) =>
        var t2 := InsertMessage(t1, NewMessage(id, MessageRole.User, message)).value;
        assert WellFormed(t2);
    }
  }

  /** A conversation the session has never had holds no messages yet. */
  lemma FreshConversationIsEmpty(t: Tables, id: nat)
    requires Consistent(t) && id !in ConversationIds(t)
    ensures MessagesOf(t, id) == []
  {
  }

  /**
   * The messages of conversation `id` after two rows of that conversation,
   * stamped no earlier than any stored message, are appended: the old list
   * followed by the two rows.
   */
  lemma MessagesAfterAppend(t: Tables, t': Tables, id: nat, u: MessageRow, a: MessageRow)
    requires forall i :: 0 <= i < |t.messages| ==> t.messages[i].createdAt <= t.clock
    requires t'.messages == t.messages + [u, a]
    requires u.conversationId == id && a.conversationId == id
    requires u.createdAt == t.clock && a.createdAt == t.clock
    ensures MessagesOf(t', id) == MessagesOf(t, id) + [u, a]
  {
    AppendTwoLatest(t.messages, u, a, id);
    assert t'.messages == t.messages + [u] + [a];
    MessagesOfSorted(t, id);
    MessagesOfSorted(t', id);
    AppendPair(MessagesOf(t, id), MessagesOf(t, id) + [u], MessagesOf(t', id), u, a);
  }

  lemma MessagesOfSorted(t: Tables, id: nat)
    ensures MessagesOf(t, id) == SortByKey(Where(t.messages, InConversation(id)), MessageTime)
  {
  }

  lemma AppendPair(s: seq<MessageRow>, su: seq<MessageRow>, sua: seq<MessageRow>, u: MessageRow, a: MessageRow)
    requires su == s + [u] && sua == su + [a]
    ensures sua == s + [u, a]
  {
  }

  /** Two messages, each stamped no earlier than what precedes it, are listed last, in order. */
  lemma AppendTwoLatest(messages: seq<MessageRow>, u: MessageRow, a: MessageRow, id: nat)
    requires forall i :: 0 <= i < |messages| ==> messages[i].createdAt <= u.createdAt
    requires u.createdAt <= a.createdAt
    requires u.conversationId == id && a.conversationId == id
    ensures SortByKey(Where(messages + [u] + [a], InConversation(id)), MessageTime) ==
      SortByKey(Where(messages, InConversation(id)), MessageTime) + [u] + [a]
  {
    AppendLatestMessage(messages, u, id);
    StampedNoLaterAfterAppend(messages, u, a.createdAt);
    AppendLatestMessage(messages + [u], a, id);
  }

  lemma StampedNoLaterAfterAppend(messages: seq<MessageRow>, m: MessageRow, k: nat)
    requires forall i :: 0 <= i < |messages| ==> messages[i].createdAt <= k
    requires m.createdAt <= k
    ensures forall i :: 0 <= i < |messages + [m]| ==> (messages + [m])[i].createdAt <= k
  {
  }

  /** A message stamped no earlier than every stored one is listed last in its conversation. */
  lemma AppendLatestMessage(messages: seq<MessageRow>, m: MessageRow, id: nat)
    requires forall i :: 0 <= i < |messages| ==> messages[i].createdAt <= m.createdAt
    requires m.conversationId == id
    ensures SortByKey(Where(messages + [m], InConversation(id)), MessageTime) ==
      SortByKey(Where(messages, InConversation(id)), MessageTime) + [m]
  {
    SortedWhereAppend(messages, m, InConversation(id), MessageTime);
  }

  // ---------------------------------------------------------------------------
  // getHistory

  datatype HistoryResult = HistoryResult(messages: seq<MessageRow>)

  /** `getHistory` on tables `t`: the session's messages, or nothing when it has no conversation. */
  function GetHistorySpec(up: bool, t: Tables, sessionId: string): (r: seq<MessageRow>)
    ensures (!up || ConversationBySession(t, sessionId).None?) ==> r == []
    ensures up && ConversationBySession(t, sessionId).Some? ==>
      r == MessagesOf(t, ConversationBySession(t, sessionId).value.id)
  {
    if !up then []
    else match ConversationBySession(t, sessionId)
      case None => []
      case Some(c) => MessagesOf(t, c.id)
  }

  /**
   * After a successful `sendMessage`, `getHistory` for the same session
   * returns what it returned before, followed by the user message and then
   * the reply.
   */
  lemma HistoryAfterSend(t: Tables, sessionId: string, message: string,
                         llm: seq<Turn> -> LlmOutcome, stringify: seq<ContentPart> -> string,
                         t': Tables, r: SendResult)
    requires Consistent(t)
    requires SendMessageSpec(true, t, sessionId, message, llm, stringify) == (t', r) && r.success
    ensures r.conversationId.Some?
    ensures var t1 := Resolve(t, sessionId).0;
      GetHistorySpec(true, t', sessionId) ==
        GetHistorySpec(true, t, sessionId) +
        [UserMessageRow(t1, r.conversationId.value, message), ReplyRow(t1, r.conversationId.value, r.response)]
  {
    var t1, c := Resolve(t, sessionId).0, Resolve(t, sessionId).1.value;
    HistoryBeforeSend(t, sessionId);
    ResolveKeepsStamps(t, sessionId);
    ExchangeOutcome(t1, c.id, message, llm, stringify);
    HistoryAfterExchange(t1, c.id, message, llm, stringify);
  }

  /** A successful exchange lists the user message and the reply last in the conversation. */
  lemma HistoryAfterExchange(t: Tables, id: nat, message: string,
                             llm: seq<Turn> -> LlmOutcome, stringify: seq<ContentPart> -> string)
    requires id in ConversationIds(t)
    requires forall i :: 0 <= i < |t.messages| ==> t.messages[i].createdAt <= t.clock
    requires Exchange(t, id, message, llm, stringify).1.success
    ensures var (t', r) := Exchange(t, id, message, llm, stringify);
      MessagesOf(t', id) == MessagesOf(t, id) + [UserMessageRow(t, id, message), ReplyRow(t, id, r.response)]
  {
    var (t', r) := Exchange(t, id, message, llm, stringify);
    ExchangeOutcome(t, id, message, llm, stringify);
    MessagesAfterAppend(t, t', id, UserMessageRow(t, id, message), ReplyRow(t, id, r.response));
  }

  /** Resolving the session stores no message and does not move the clock. */
  lemma ResolveKeepsStamps(t: Tables, sessionId: string)
    requires Consistent(t)
    ensures var t1 := Resolve(t, sessionId).0;
      forall i :: 0 <= i < |t1.messages| ==> t1.messages[i].createdAt <= t1.clock
  {
  }

  /** Before a send, `getHistory` shows the messages of the conversation the send will use. */
  lemma HistoryBeforeSend(t: Tables, sessionId: string)
    requires Consistent(t)
    ensures GetHistorySpec(true, t, sessionId) == MessagesOf(Resolve(t, sessionId).0, Resolve(t, sessionId).1.value.id)
  {
  }

  /**
   * Sequential sends for one session converge: once a send has resolved the
   * session's conversation, a later send on any store that only gained rows
   * since creates no conversation and uses the same one.
   */
  lemma SendsConverge(t: Tables, u: Tables, extra: seq<ConversationRow>, sessionId: string,
                      message1: string, message2: string,
                      llm1: seq<Turn> -> LlmOutcome, llm2: seq<Turn> -> LlmOutcome,
                      stringify: seq<ContentPart> -> string)
    requires u.conversations == SendMessageSpec(true, t, sessionId, message1, llm1, stringify).0.conversations + extra
    ensures var r2 := SendMessageSpec(true, u, sessionId, message2, llm2, stringify);
      && r2.0.conversations == u.conversations
      && Resolve(u, sessionId).1 == Resolve(t, sessionId).1
      && (SendMessageSpec(true, t, sessionId, message1, llm1, stringify).1.success && r2.1.success ==>
            r2.1.conversationId == SendMessageSpec(true, t, sessionId, message1, llm1, stringify).1.conversationId)
  {
    var t' := SendMessageSpec(true, t, sessionId, message1, llm1, stringify).0;
    SendOutcome(true, t, sessionId, message1, llm1, stringify);
    SendOutcome(true, u, sessionId, message2, llm2, stringify);
    var resolved := Resolve(t, sessionId);
    ExchangeOutcome(resolved.0, resolved.1.value.id, message1, llm1, stringify);
    assert ConversationBySession(t', sessionId) == resolved.1;
    FirstAppend(t'.conversations, extra, BySession(sessionId));
    assert ConversationBySession(u, sessionId) == resolved.1;
  }

  /** `getHistory` on a `Database`: a read that never creates a conversation. */
  method GetHistory(db: Database, sessionId: string) returns (r: HistoryResult)
    requires db.Valid()
    modifies db
    ensures db.Valid() && db.handle == old(db.Connected()) && db.tables == old(db.tables)
    ensures r.messages == GetHistorySpec(db.handle.Some?, db.tables, sessionId)
  {
    var conversation := db.GetChatConversationBySessionId(sessionId);
    if conversation.None? {
      return HistoryResult([]);
    }
    var messages := db.GetChatMessages(conversation.value.id);
    r := HistoryResult(messages);
  }

  /** `sendMessage` on a `Database`, step by step. */
  method SendMessage(db: Database, sessionId: string, message: string,
                     llm: seq<Turn> -> LlmOutcome, stringify: seq<ContentPart> -> string)
    returns (r: SendResult)
    requires db.Valid()
    modifies db
    ensures db.Valid() && db.handle == old(db.Connected())
    ensures (db.tables, r) == SendMessageSpec(db.handle.Some?, old(db.tables), sessionId, message, llm, stringify)
  {
    var conversation := db.GetChatConversationBySessionId(sessionId);
    if conversation.None? {
      var created := db.CreateChatConversation(SessionConversation(sessionId));
      if created.Err? {
        return SendFailed(ErrorValue(created.message));
      }
      conversation := db.GetChatConversationBySessionId(sessionId);
    }
    if conversation.None? {
      return SendFailed(ErrorValue(ConversationMissing));
    }
    assert db.handle.Some? && (db.tables, conversation) == Resolve(old(db.tables), sessionId);
    r := AskAndStore(db, conversation.value.id, message, llm, stringify);
  }

  /** The steps of `sendMessage` after the conversation `id` is resolved. */
  method AskAndStore(db: Database, id: nat, message: string,
                     llm: seq<Turn> -> LlmOutcome, stringify: seq<ContentPart> -> string)
    returns (r: SendResult)
    requires db.Valid() && db.handle.Some?
    modifies db
    ensures db.Valid() && db.handle == old(db.handle)
    ensures (db.tables, r) == Exchange(old(db.tables), id, message, llm, stringify)
  {
    var history := db.GetChatMessages(id);
    var outcome := llm(BuildPrompt(history, message));
    if outcome.Threw? {
      return SendFailed(outcome.thrown);
    }
    var reply := ReplyText(outcome.completion, stringify);
    var saved := db.CreateChatMessage(NewMessage(id, MessageRole.User, message));
    if saved.Err? {
      return SendFailed(ErrorValue(saved.message));
    }
    saved := db.CreateChatMessage(NewMessage(id, Assistant, reply));
    match saved
    case Err(e) =>
      r := SendFailed(ErrorValue(e));
    case Ok(_) =>
      r := SendResult(true, reply, Some(id), None);
  }

  // ---------------------------------------------------------------------------
  // submitLead and the lead listing

  /** The `submitLead` input; the session id is required but not stored. */
  datatype LeadInput = LeadInput(
    name: string,
    email: string,
    phone: Option<string>,
    projectType: Option<string>,
    budget: Option<string>,
    timeline: Option<string>,
    message: Option<string>,
    sessionId: string)

  datatype SubmitResult = SubmitResult(success: bool, message: Option<string>, error: Option<string>)

  /** A procedure call either fails input validation before its handler runs, or returns the handler's value. */
  datatype Call<+T> = InputRejected | Answered(value: T)

  const ChatbotSource: string := "chatbot"
  const LeadCreated: string := "Lead created successfully"
  /** How many leads the lead listing asks for. */
  const LeadListLimit: nat := 100

  function OptionalField(o: Option<string>): Field<string> {
    match o
    case None => Unset
    case Some(v) => Set(v)
  }

  /** The insert `submitLead` issues: the input's fields, source "chatbot", status "new". */
  function LeadRecord(input: LeadInput): (l: NewLead)
    ensures l.name == input.name && l.email == input.email
    ensures l.source == Set(ChatbotSource) && l.status == Set(LeadStatus.New)
  {
    NewLead(input.name, input.email, OptionalField(input.phone), OptionalField(input.projectType),
      OptionalField(input.budget), OptionalField(input.timeline), OptionalField(input.message),
      Set(ChatbotSource), Set(LeadStatus.New))
  }

  /** The lead row a submission stores carries the input's fields and nothing from the session. */
  lemma SubmittedLeadRow(input: LeadInput, id: nat, now: nat)
    ensures var row := LeadRowOf(LeadRecord(input), id, now);
      && row.name == input.name && row.email == input.email && row.phone == input.phone
      && row.projectType == input.projectType && row.budget == input.budget
      && row.timeline == input.timeline && row.message == input.message
      && row.source == Some(ChatbotSource) && row.status == Some(LeadStatus.New)
  {
  }

  /** `submitLead` on tables `t`. */
  function SubmitLeadSpec(up: bool, t: Tables, input: LeadInput, isEmail: string -> bool): (r: (Tables, Call<SubmitResult>))
    ensures r.1.InputRejected? <==> !isEmail(input.email)
    ensures !up ==> r.0 == t
  {
    if !isEmail(input.email) then (t, InputRejected)
    else if !up then (t, Answered(SubmitResult(false, None, Some(DatabaseUnavailable))))
    else (InsertLead(t, LeadRecord(input)), Answered(SubmitResult(true, Some(LeadCreated), None)))
  }

  /**
   * A submission with an invalid email is rejected and stores nothing; a
   * valid one either stores exactly one lead (source "chatbot", status
   * "new") or, with the store unreachable, answers `success: false` with the
   * store's message and stores nothing.
   */
  lemma SubmitLeadOutcome(up: bool, t: Tables, input: LeadInput, isEmail: string -> bool)
    ensures var (t', r) := SubmitLeadSpec(up, t, input, isEmail);
      && (r.InputRejected? <==> !isEmail(input.email))
      && (r.Answered? && r.value.success <==> isEmail(input.email) && up)
      && (r.Answered? && !r.value.success ==> r.value.error == Some(DatabaseUnavailable))
      && (!(r.Answered? && r.value.success) ==> t' == t)
      && (r.Answered? && r.value.success ==>
            t'.leads == t.leads + [LeadRowOf(LeadRecord(input), t.nextLeadId, t.clock)] &&
            t'.conversations == t.conversations && t'.messages == t.messages && t'.users == t.users)
  {
  }

  /** When fewer than `LeadListLimit` leads exist, a newly submitted lead is in the listing. */
  lemma SubmittedLeadIsListed(t: Tables, input: LeadInput, isEmail: string -> bool)
    requires isEmail(input.email) && |t.leads| < LeadListLimit
    ensures LeadRowOf(LeadRecord(input), t.nextLeadId, t.clock) in
      LatestLeads(SubmitLeadSpec(true, t, input, isEmail).0, LeadListLimit)
  {
    var t' := SubmitLeadSpec(true, t, input, isEmail).0;
    var row := LeadRowOf(LeadRecord(input), t.nextLeadId, t.clock);
    var listed := LatestLeads(t', LeadListLimit);
    assert row in multiset(t'.leads) by {
      assert t'.leads[|t.leads|] == row;
    }
    assert |multiset(listed)| == |multiset(t'.leads)|;
    SubMultisetOfSameSize(multiset(listed), multiset(t'.leads));
    assert row in multiset(listed);
  }

  /**
   * Whatever the number of leads, a newly submitted lead heads the listing
   * when every earlier lead was created before the current clock reading.
   */
  lemma SubmittedLeadIsListedFirst(t: Tables, input: LeadInput, isEmail: string -> bool)
    requires isEmail(input.email)
    requires forall i :: 0 <= i < |t.leads| ==> t.leads[i].createdAt < t.clock
    ensures LatestLeads(SubmitLeadSpec(true, t, input, isEmail).0, LeadListLimit)[0] ==
      LeadRowOf(LeadRecord(input), t.nextLeadId, t.clock)
  {
    var t' := SubmitLeadSpec(true, t, input, isEmail).0;
    var row := LeadRowOf(LeadRecord(input), t.nextLeadId, t.clock);
    var listed := LatestLeads(t', LeadListLimit);
    assert t'.leads == t.leads + [row];
    assert |listed| >= 1;
    assert listed[0] in multiset(t'.leads);
    var p :| 0 <= p < |t'.leads| && t'.leads[p] == listed[0];
    LatestLeadsAreNewest(t', LeadListLimit);
    assert t'.leads[|t.leads|] == row;
    if p < |t.leads| {
      // An older lead would head the listing although the new lead is newer.
      assert false;
    }
  }

  lemma SubMultisetOfSameSize<T>(a: multiset<T>, b: multiset<T>)
    requires a <= b && |a| == |b|
    ensures a == b
  {
    var d := b - a;
    assert |b| == |a| + |d|;
    assert d == multiset{};
  }

  method SubmitLead(db: Database, input: LeadInput, isEmail: string -> bool) returns (r: Call<SubmitResult>)
    requires db.Valid()
    modifies db
    ensures db.Valid()
    ensures !isEmail(input.email) ==> db.handle == old(db.handle) && db.tables == old(db.tables)
    ensures isEmail(input.email) ==> db.handle == old(db.Connected())
    ensures (db.tables, r) == SubmitLeadSpec(db.handle.Some?, old(db.tables), input, isEmail)
  {
    if !isEmail(input.email) {
      return InputRejected;
    }
    var created := db.CreateLead(LeadRecord(input));
    match created
    case Ok(_) =>
      r := Answered(SubmitResult(true, Some(LeadCreated), None));
    case Err(e) =>
      r := Answered(SubmitResult(false, None, Some(e)));
  }

  datatype LeadList = LeadList(success: bool, leads: seq<LeadRow>)

  /** `leads.list`: the newest `LeadListLimit` leads; an unreachable store lists none. */
  method ListLeads(db: Database) returns (r: LeadList)
    requires db.Valid()
    modifies db
    ensures db.Valid() && db.handle == old(db.Connected()) && db.tables == old(db.tables)
    ensures r.success
    ensures r.leads == if db.handle.Some? then LatestLeads(db.tables, LeadListLimit) else []
  {
    var leads := db.GetLeads(LeadListLimit);
    r := LeadList(true, leads);
  }
}
