/**
 * The chat widget of the site (`ChatBot`): the transcript it shows, the text
 * in its input box, whether a reply is awaited, and the session id it keeps
 * in the browser's session storage. Rendering, scrolling and opening or
 * closing the window are left out; what remains is how each event changes
 * that state.
 */
module Widget {
  import opened Wrappers
  import opened Schema
  import opened Store
  import opened Chat

  /** The session-storage key under which the widget keeps its session id. */
  const SessionKey: string := "chatSessionId"

  /** The reply shown when the call to the server throws. */
  const ErrorApology: string := "Sorry, I encountered an error. Please try again."

  // ---------------------------------------------------------------------------
  // Whitespace and `String.prototype.trim`

  /** ECMAScript white space and line terminators: what `trim` removes. */
  predicate IsJsSpace(c: char) {
    var n := c as int;
    || n == 0x09 || n == 0x0A || n == 0x0B || n == 0x0C || n == 0x0D || n == 0x20
    || n == 0xA0 || n == 0x1680 || (0x2000 <= n <= 0x200A)
    || n == 0x2028 || n == 0x2029 || n == 0x202F || n == 0x205F || n == 0x3000 || n == 0xFEFF
  }

  /** How many white-space characters `s` starts with. */
  function LeadingSpaces(s: string): (n: nat)
    ensures n <= |s|
    ensures forall i :: 0 <= i < n ==> IsJsSpace(s[i])
    ensures n < |s| ==> !IsJsSpace(s[n])
  {
    if s == [] || !IsJsSpace(s[0]) then 0
    else
      var n := 1 + LeadingSpaces(s[1..]);
      assert forall i :: 1 <= i < n ==> s[i] == s[1..][i - 1];
      n
  }

  /**
   * Where the text of `s` ends when it starts at `lo`: the white space from
   * the result up to `hi`, and from `hi` on, is trailing.
   */
  function ContentEnd(s: string, lo: nat, hi: nat): (n: nat)
    requires lo <= hi <= |s|
    requires forall i :: hi <= i < |s| ==> IsJsSpace(s[i])
    ensures lo <= n <= hi
    ensures forall i :: n <= i < |s| ==> IsJsSpace(s[i])
    ensures n > lo ==> !IsJsSpace(s[n - 1])
    decreases hi
  {
    if hi > lo && IsJsSpace(s[hi - 1]) then ContentEnd(s, lo, hi - 1) else hi
  }

  /**
   * `s.trim()`: `s` without white space at either end. It is empty exactly
   * when `s` is all white space, the first guard of `handleSendMessage`.
   */
  function Trim(s: string): (r: string)
    ensures r == [] <==> forall i :: 0 <= i < |s| ==> IsJsSpace(s[i])
    ensures LeadingSpaces(s) + |r| <= |s| && r == s[LeadingSpaces(s)..LeadingSpaces(s) + |r|]
    ensures forall i :: LeadingSpaces(s) + |r| <= i < |s| ==> IsJsSpace(s[i])
    ensures r != [] ==> !IsJsSpace(r[0]) && !IsJsSpace(r[|r| - 1])
  {
    var lo := LeadingSpaces(s);
    var hi := ContentEnd(s, lo, |s|);
    s[lo..hi]
  }

  // ---------------------------------------------------------------------------
  // The transcript

  /** What identifies a shown message: a stored message's id, or a uuid made in the browser. */
  datatype MessageKey = ServerKey(id: nat) | ClientKey(uuid: string)

  /** One message of the transcript. */
  datatype Entry = Entry(key: MessageKey, role: MessageRole, content: string, timestamp: nat)

  /** A stored message as the widget shows it. */
  function HistoryEntry(m: MessageRow): (e: Entry)
    ensures e.key == ServerKey(m.id) && e.role == m.role && e.content == m.content && e.timestamp == m.createdAt
  {
    Entry(ServerKey(m.id), m.role, m.content, m.createdAt)
  }

  /** The transcript loaded from `getHistory`, in the order the server lists it. */
  function HistoryEntries(history: seq<MessageRow>): (r: seq<Entry>)
    ensures |r| == |history|
    ensures forall i :: 0 <= i < |history| ==> r[i] == HistoryEntry(history[i])
  {
    seq(|history|, i requires 0 <= i < |history| => HistoryEntry(history[i]))
  }

  /**
   * The transcript after the history query delivers `data`: replaced by the
   * stored messages when there are any, and otherwise kept as it is.
   */
  function Hydrated(current: seq<Entry>, data: Option<HistoryResult>): (r: seq<Entry>)
    ensures data.Some? && data.value.messages != [] ==> r == HistoryEntries(data.value.messages)
    ensures data.None? || data.value.messages == [] ==> r == current
  {
    match data
    case Some(h) => if |h.messages| > 0 then HistoryEntries(h.messages) else current
    case None => current
  }

  /** What a `sendMessage` call resolves to: the server's result, or a throw. */
  datatype Reply = Delivered(result: SendResult) | Threw

  /** A `sendMessage` request: the session and the message text. */
  datatype SendRequest = SendRequest(sessionId: string, message: string)

  /**
   * The entries a settled call adds: the reply on success, nothing on a
   * `success: false` result, the apology on a throw.
   */
  function ReplyEntries(reply: Reply, key: string, now: nat): (r: seq<Entry>)
    ensures |r| <= 1
    ensures r == [] <==> reply.Delivered? && !reply.result.success
    ensures r != [] ==> r[0].role == Assistant && r[0].key == ClientKey(key) && r[0].timestamp == now
    ensures reply.Threw? ==> r[0].content == ErrorApology
    ensures reply.Delivered? && reply.result.success ==> r[0].content == reply.result.response
  {
    match reply
    case Threw => [Entry(ClientKey(key), Assistant, ErrorApology, now)]
    case Delivered(result) =>
      if result.success then [Entry(ClientKey(key), Assistant, result.response, now)] else []
  }

  /** The role and text of each entry: what a reader of the transcript sees, keys and times aside. */
  function Shown(entries: seq<Entry>): (r: seq<(MessageRole, string)>)
    ensures |r| == |entries|
    ensures forall i :: 0 <= i < |entries| ==> r[i] == (entries[i].role, entries[i].content)
  {
    seq(|entries|, i requires 0 <= i < |entries| => (entries[i].role, entries[i].content))
  }

  // ---------------------------------------------------------------------------
  // The browser's session storage

  class SessionStorage {
    var items: map<string, string>

    constructor (items: map<string, string>)
      ensures this.items == items
    {
      this.items := items;
    }
  }

  /** The session id the widget settles on: the stored one unless it is missing or empty. */
  function ChosenSessionId(items: map<string, string>, freshId: string): (r: string)
    ensures SessionKey in items && items[SessionKey] != "" ==> r == items[SessionKey]
    ensures SessionKey !in items || items[SessionKey] == "" ==> r == freshId
  {
    if SessionKey in items && items[SessionKey] != "" then items[SessionKey] else freshId
  }

  // ---------------------------------------------------------------------------
  // The widget

  class ChatBot {
    var messages: seq<Entry>
    var inputValue: string
    var isLoading: bool
    var sessionId: string

    /** A freshly mounted widget: no transcript, empty input, no session yet. */
    constructor ()
      ensures messages == [] && inputValue == "" && !isLoading && sessionId == ""
    {
      messages := [];
      inputValue := "";
      isLoading := false;
      sessionId := "";
    }

    /**
     * The mount effect: reuse the session id kept in session storage, or
     * take the fresh uuid when none is kept, and write it back.
     */
    method InitSession(storage: SessionStorage, freshId: string)
      requires freshId != ""
      modifies this, storage
      ensures sessionId == ChosenSessionId(old(storage.items), freshId) && sessionId != ""
      ensures storage.items == old(storage.items)[SessionKey := sessionId]
      ensures messages == old(messages) && inputValue == old(inputValue) && isLoading == old(isLoading)
    {
      var stored: string := if SessionKey in storage.items then storage.items[SessionKey] else "";
      var id := if stored != "" then stored else freshId;
      storage.items := storage.items[SessionKey := id];
      sessionId := id;
    }

    /** Typing into the input box, which is disabled while a reply is awaited. */
    method SetInput(text: string)
      requires !isLoading
      modifies this
      ensures inputValue == text
      ensures messages == old(messages) && isLoading == old(isLoading) && sessionId == old(sessionId)
    {
      inputValue := text;
    }

    /** The history effect: show the stored messages once the query delivers any. */
    method Hydrate(data: Option<HistoryResult>)
      modifies this
      ensures messages == Hydrated(old(messages), data)
      ensures inputValue == old(inputValue) && isLoading == old(isLoading) && sessionId == old(sessionId)
    {
      if data.Some? && |data.value.messages| > 0 {
        messages := HistoryEntries(data.value.messages);
      }
    }

    /**
     * `handleSendMessage` up to the call, which the disabled form allows only
     * while no reply is awaited: nothing happens when the input is blank or
     * there is no session; otherwise the typed text, untrimmed, is
     * shown as the user's message, the input is cleared, the widget waits,
     * and that text is what is sent.
     */
    method BeginSend(userKey: string, now: nat) returns (request: Option<SendRequest>)
      requires !isLoading
      modifies this
      ensures request.None? <==> Trim(old(inputValue)) == "" || old(sessionId) == ""
      ensures request.None? ==>
        messages == old(messages) && inputValue == old(inputValue) && isLoading == old(isLoading)
      ensures request.Some? ==>
        && request.value == SendRequest(old(sessionId), old(inputValue))
        && messages == old(messages) + [Entry(ClientKey(userKey), MessageRole.User, old(inputValue), now)]
        && inputValue == "" && isLoading
      ensures sessionId == old(sessionId)
    {
      if Trim(inputValue) == "" || sessionId == "" {
        return None;
      }
      var text := inputValue;
      messages := messages + [Entry(ClientKey(userKey), MessageRole.User, text, now)];
      inputValue := "";
      isLoading := true;
      request := Some(SendRequest(sessionId, text));
    }

    /** `handleSendMessage` after the call settles: add what the reply calls for, then stop waiting. */
    method FinishSend(reply: Reply, assistantKey: string, now: nat)
      modifies this
      ensures messages == old(messages) + ReplyEntries(reply, assistantKey, now)
      ensures !isLoading && inputValue == old(inputValue) && sessionId == old(sessionId)
    {
      match reply {
        case Threw =>
          messages := messages + [Entry(ClientKey(assistantKey), Assistant, ErrorApology, now)];
        case Delivered(result) =>
          if result.success {
            messages := messages + [Entry(ClientKey(assistantKey), Assistant, result.response, now)];
          }
      }
      isLoading := false;
    }

    /**
     * The whole of `handleSendMessage` when nothing else happens while the
     * call is pending: `server` stands for the `sendMessage` mutation.
     */
    method HandleSendMessage(server: SendRequest -> Reply, userKey: string, assistantKey: string,
                             sentAt: nat, settledAt: nat)
      requires !isLoading
      modifies this
      ensures Trim(old(inputValue)) == "" || old(sessionId) == "" ==>
        messages == old(messages) && inputValue == old(inputValue) && isLoading == old(isLoading)
      ensures Trim(old(inputValue)) != "" && old(sessionId) != "" ==>
        && messages == old(messages) + [Entry(ClientKey(userKey), MessageRole.User, old(inputValue), sentAt)]
                       + ReplyEntries(server(SendRequest(old(sessionId), old(inputValue))), assistantKey, settledAt)
        && inputValue == "" && !isLoading
      ensures sessionId == old(sessionId)
    {
      var request := BeginSend(userKey, sentAt);
      if request.Some? {
        FinishSend(server(request.value), assistantKey, settledAt);
      }
    }
  }

  // ---------------------------------------------------------------------------
  // The widget and the server agree

  /**
   * When the transcript shows what the server stores for the session, a
   * send the server completes keeps it so: the user's text and the reply
   * the widget adds are, role for role and text for text, the two messages
   * the server stores, so a reload would show the same conversation.
   */
  lemma TranscriptFollowsServer(t: Tables, sessionId: string, transcript: seq<Entry>, message: string,
                                llm: seq<Turn> -> LlmOutcome, stringify: seq<ContentPart> -> string,
                                t': Tables, r: SendResult,
                                userKey: string, assistantKey: string, sentAt: nat, settledAt: nat)
    requires Consistent(t)
    requires Shown(transcript) == Shown(HistoryEntries(GetHistorySpec(true, t, sessionId)))
    requires SendMessageSpec(true, t, sessionId, message, llm, stringify) == (t', r) && r.success
    ensures Shown(transcript + [Entry(ClientKey(userKey), MessageRole.User, message, sentAt)]
                             + ReplyEntries(Delivered(r), assistantKey, settledAt)) ==
            Shown(HistoryEntries(GetHistorySpec(true, t', sessionId)))
  {
    HistoryAfterSend(t, sessionId, message, llm, stringify, t', r);
    var t1 := Resolve(t, sessionId).0;
    var id := r.conversationId.value;
    ExtendsAlike(transcript, GetHistorySpec(true, t, sessionId), GetHistorySpec(true, t', sessionId),
                 Entry(ClientKey(userKey), MessageRole.User, message, sentAt), Delivered(r), assistantKey, settledAt,
                 UserMessageRow(t1, id, message), ReplyRow(t1, id, r.response));
  }

  /**
   * A transcript that reads like the stored history still does once the
   * widget adds the user's entry and the reply, and the server stores the
   * two messages they read like.
   */
  lemma ExtendsAlike(transcript: seq<Entry>, history: seq<MessageRow>, history': seq<MessageRow>,
                     userEntry: Entry, reply: Reply, assistantKey: string, settledAt: nat,
                     u: MessageRow, a: MessageRow)
    requires Shown(transcript) == Shown(HistoryEntries(history))
    requires reply.Delivered? && reply.result.success
    requires history' == history + [u, a]
    requires userEntry.role == u.role && userEntry.content == u.content
    requires a.role == Assistant && a.content == reply.result.response
    ensures Shown(transcript + [userEntry] + ReplyEntries(reply, assistantKey, settledAt)) == Shown(HistoryEntries(history'))
  {
  }
}
