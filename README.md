# Agri Brazil chatbot and lead capture, modelled in Dafny

This project models the lead-qualification chatbot of the Agri Brazil Success site. It has four parts:

- the four-table MySQL schema: users, leads, chat conversations and chat messages;
- the persistence adapter (`server/db.ts`), with its lazily created connection handle;
- the remote procedures `chatbot.sendMessage`, `chatbot.getHistory`, `chatbot.submitLead` and `leads.list` (`server/routers.ts`);
- the browser chat widget (`client/src/components/ChatBot.tsx`).

How the modules are laid out:

- `wrappers.dfy` holds `Option` and `Result`.
- `schema.dfy` holds the enumerations, the column defaults, the rows, the insert records, and the rows an insert creates.
- `query.dfy` holds the three query clauses the adapter uses over a table kept in insertion order:
  - WHERE, as `Where`;
  - WHERE with LIMIT 1, as `FirstIndex` and `First`;
  - a stable ORDER BY, as `SortByKey`.
- `store.dfy` holds:
  - the tables as a value (`Tables`) and the invariant the store keeps (`WellFormed`);
  - every read and write as a function of the tables;
  - the user upsert, built step by step as the source builds it;
  - the class `Database`. Its fields are the shared handle and the tables, and each adapter operation is a method proved equal to the function.
- `chat.dfy` holds the procedures. Each has a specification function over the tables, a method that runs it against a `Database`, and lemmas about the specification.
- `widget.dfy` holds:
  - the widget as a class with the state the component keeps (`messages`, `inputValue`, `isLoading`, `sessionId`);
  - the browser's session storage, as a class;
  - the ECMAScript `trim`;
  - a lemma showing that what the widget shows after a send matches what the server stores.

Things outside the code appear as parameters:

- the language model is a function from the prompt to a completion or a thrown value (`llm`);
- the JSON serialisation of a structured reply is `stringify`;
- the email syntax check of the input schema is `isEmail`;
- the uuids and the clock readings the widget uses are method arguments;
- the driver's acceptance of `DATABASE_URL` is the constant `Database.urlAccepted`.

Some behaviour of the code is easy to misread, and the model follows the code:

- One session may have several conversations, and the model does not assume otherwise. `getChatConversationBySessionId` has no ORDER BY, so the database may return any conversation of the session. The model returns the first in table order (see Left out). `Chat.SendsConverge` proves that sequential sends for one session keep using the conversation the first send resolved.
- `submitLead` does not check that `name` is non-empty. An invalid email is rejected by the procedure's input schema before the handler runs, so the model shows `InputRejected` rather than `success: false`.
- `createLead`, `createChatConversation` and `createChatMessage` return the driver's insert result, and `updateLeadStatus` returns the driver's update result. The model returns the new row's id, or `()` for the update.
- An empty `DATABASE_URL` counts as unset: `getDb` then creates no handle, and the store is unreachable.
- `getChatMessages` orders by `createdAt` only. Messages stored in the same clock reading keep insertion order in this model, because `SortByKey` is stable. MySQL does not promise this (see Left out).

## Model

| member | source | states |
|---|---|---|
| Schema.UserRole.Name | drizzle/schema.ts:19 | the stored text of each user role parses back to that role |
| Schema.UserRoleFromName | drizzle/schema.ts:19 | a text is a user role exactly when it is "user" or "admin" |
| Schema.LeadStatus.Name | drizzle/schema.ts:41 | the stored text of each lead status parses back to that status |
| Schema.LeadStatusFromName | drizzle/schema.ts:41 | a text is a lead status exactly when it is one of the five workflow names |
| Schema.ConversationStatus.Name | drizzle/schema.ts:57 | the stored text of each conversation status parses back to it |
| Schema.ConversationStatusFromName | drizzle/schema.ts:57 | a text is a conversation status exactly when it is "active", "closed" or "converted" |
| Schema.MessageRole.Name | drizzle/schema.ts:73 | the stored text of each message role parses back to it |
| Schema.MessageRoleFromName | drizzle/schema.ts:73 | a text is a message role exactly when it is "user" or "assistant" |
| Schema.LeadRowOf | drizzle/schema.ts:31-44 | an inserted lead keeps its id, name and email and is stamped now in both time columns; phone, project type, budget, timeline and message hold the given value or NULL; an unset source or status takes "chatbot" or "new", an explicit null stays NULL, and a given value is stored as given |
| Schema.ConversationRowOf | drizzle/schema.ts:52-60 | an inserted conversation keeps its session id, lead id and user id (NULL when not given), is stamped now, and takes status "active" when the status is unset |
| Schema.MessageRowOf | drizzle/schema.ts:68-76 | an inserted message keeps its conversation, role and content and is stamped now |
| Query.FirstIndex | server/db.ts:158-159 | LIMIT 1 finds nothing exactly when no row matches; otherwise it finds a matching row with no match before it |
| Query.FirstIndexAppendFound | server/db.ts:158-159 | rows inserted later never change a first match that already exists |
| Query.FirstIndexAppendMissing | server/db.ts:158-159 | with no match among the old rows, the first match is the first matching new row |
| Query.First | server/db.ts:158-159 | the first matching row: none exactly when no row matches; otherwise a matching row with no earlier match |
| Query.FirstAppend | server/db.ts:158-159 | appending rows keeps an existing first match, and otherwise the first match comes from the appended rows |
| Query.Where | server/db.ts:178 | WHERE returns only matching rows taken from the table |
| Query.WhereComplete | server/db.ts:178 | WHERE leaves out no matching row |
| Query.WhereAppend | server/db.ts:178 | WHERE over appended rows is WHERE over the old rows followed by WHERE over the new rows |
| Query.SortByKey | server/db.ts:178 | ORDER BY returns a sorted permutation of its input |
| Query.SortAppendLast | server/db.ts:178 | a row whose key is at least every other key sorts last |
| Query.SortedWhereAppend | server/db.ts:178 | a matching row appended with the largest key is listed last by WHERE plus ORDER BY |
| Store.KeysUnique | drizzle/schema.ts:13-15 | primary keys are unique in every table, and open ids are unique among users (schema.ts:32, 53, 69 for the other tables) |
| Store.Consistent | drizzle/schema.ts:70-72 | ids below the auto-increment counters, no creation or update time ahead of the clock (a user's `lastSignedIn`, which the caller supplies, is not bounded), and every message referencing an existing conversation |
| Store.WellFormed | drizzle/schema.ts:13-75 | what the store guarantees: unique keys and a consistent content |
| Store.ConversationBySession | server/db.ts:152-160 | finds nothing exactly when no conversation has that session id; otherwise a conversation of that session from the table |
| Store.ConversationById | server/db.ts:142-150 | finds nothing exactly when no conversation has that id; otherwise the conversation with it |
| Store.MessagesOf | server/db.ts:172-179 | a conversation's messages are exactly its rows, as a multiset, ordered by creation time |
| Store.MessagesOfComplete | server/db.ts:172-179 | every stored message of the conversation is in its history |
| Store.LatestLeads | server/db.ts:113-120 | `getLeads(limit)` returns min(limit, count) leads drawn from the table, newest first |
| Store.LatestLeadsAreNewest | server/db.ts:119 | no lead left out is newer than a lead returned |
| Store.ConversationByIdIsTheConversation | server/db.ts:142-150 | in a well-formed store the conversation found by id is every conversation with that id |
| Store.UserByOpenId | server/db.ts:80-90 | finds nothing exactly when no user has that open id; otherwise the user with it |
| Store.LeadById | server/db.ts:103-111 | finds nothing exactly when no lead has that id; otherwise the lead with it |
| Store.LeadByIdIsTheLead | server/db.ts:103-111 | in a well-formed store the lead found by id is every lead with that id |
| Store.InsertLead | server/db.ts:93-101 | appends exactly one lead, built from the insert under the next id at the current time; only the lead table and its id counter change, and the invariant is kept |
| Store.InsertConversation | server/db.ts:132-140 | appends exactly one conversation under a fresh id and adds that id to the conversation ids; only the conversation table and its id counter change, and the invariant is kept |
| Store.InsertMessage | drizzle/schema.ts:70-72 | the foreign key: an insert fails exactly when the conversation does not exist; otherwise exactly one message is appended, only the message table and its id counter change, and the invariant is kept |
| Store.SetLeadStatus | server/db.ts:122-129 | every lead with the id takes the status; only a row that changes takes a new update time; other rows, the other tables, the counters and the clock are unchanged, and the invariant is kept |
| Store.SetLeadStatusChangesAtMostOne | server/db.ts:122-129 | in a well-formed store a status update changes at most one lead |
| Store.AssignTextColumns | server/db.ts:33-49 | the open id goes into the insert values only; each of name, email and login method is in neither map when left out, and otherwise its value or null is in both |
| Store.PrepareUpsert | server/db.ts:33-69 | a given sign-in time or role is in both maps; with no role given, the owner's open id gets "admin" in both; the insert values always hold a sign-in time (now by default); the update set holds only the given columns and is never empty; it holds a sign-in time exactly when one was given or nothing else would be updated, and then that time is now |
| Store.UserRowOf | drizzle/schema.ts:8-23 | a new user row keeps its open id and is stamped now; a name, email, login method, role or sign-in time given in the values is stored; otherwise the text columns are NULL, the role is "user" and the sign-in time is now |
| Store.UpdatedUser | server/db.ts:71-73 | the ON DUPLICATE KEY UPDATE assignments: each column in the update set takes its value, every other column is kept, and the id, open id and timestamps never change |
| Store.UpsertUserRow | server/db.ts:71-73 | the upsert touches only the users table and its id counter: without a row for the open id it appends the new row under the next id; with one, the counter and the table's length stay, and every user of another open id keeps its row |
| Store.UpsertFindsUser | server/db.ts:71-73 | after the upsert the open id has a row: the old row under the same id with the update set applied (and a new update time if anything changed), or the inserted row |
| Store.UpsertKeepsWellFormed | server/db.ts:71-73 | the upsert keeps open ids unique and keeps the store's invariant |
| Store.Database.constructor | server/db.ts:6 | the handle starts unset |
| Store.Database.Connected | server/db.ts:9-19 | the handle `getDb` yields: an existing one as it is; otherwise one exactly when a non-empty URL is configured and the driver accepts it |
| Store.Database.GetDb | server/db.ts:9-19 | `getDb` creates the handle only when it is unset and a non-empty URL is configured and accepted, never replaces an existing one, and returns it |
| Store.Database.AdvanceClock | drizzle/schema.ts:20-22 | time passes: later writes are stamped by `defaultNow()` with a later reading, and nothing else changes |
| Store.Database.UpsertUser | server/db.ts:21-78 | a missing open id is an error before anything else; an unreachable store does nothing; otherwise the user is upserted and then found by open id |
| Store.Database.ApplyUpsert | server/db.ts:32-73 | on a reachable store, the tables become an upsert of the user and the open id then has a row |
| Store.Database.GetUserByOpenId | server/db.ts:80-90 | the user lookup on a reachable store, and nothing otherwise |
| Store.Database.CreateLead | server/db.ts:93-101 | "Database not available" with no change, or the lead is inserted and its id returned |
| Store.Database.GetLead | server/db.ts:103-111 | the lead lookup on a reachable store, and nothing otherwise |
| Store.Database.GetLeads | server/db.ts:113-120 | the newest leads on a reachable store, up to 50 when no limit is given, and an empty list otherwise |
| Store.Database.UpdateLeadStatus | server/db.ts:122-129 | "Database not available" with no change, or the status update |
| Store.Database.CreateChatConversation | server/db.ts:132-140 | "Database not available" with no change, or the conversation is inserted and its id returned |
| Store.Database.GetChatConversation | server/db.ts:142-150 | the conversation lookup by id on a reachable store, and nothing otherwise |
| Store.Database.GetChatConversationBySessionId | server/db.ts:152-160 | the conversation lookup by session on a reachable store, and nothing otherwise |
| Store.Database.CreateChatMessage | server/db.ts:163-170 | "Database not available" with no change; otherwise the insert's foreign-key failure with no change, or the message is inserted and its id returned |
| Store.Database.GetChatMessages | server/db.ts:172-179 | the conversation's messages on a reachable store, and an empty list otherwise |
| Chat.BuildPrompt | server/routers.ts:69-77 | the prompt is the system instruction, then every stored message in order with its role and content, then the new user message; only the first turn is the system's |
| Chat.ReplyContent | server/routers.ts:84 | `choices[0]?.message?.content`: present exactly when there is a first choice with a message that has content, and then that content |
| Chat.ReplyText | server/routers.ts:84-87 | a missing or empty reply becomes the fixed apology; non-empty text is kept; structured content is serialised; the text is empty only for structured content |
| Chat.ErrorText | server/routers.ts:113 | an `Error`'s message, or the given fallback for any other thrown value |
| Chat.SendFailed | server/routers.ts:108-115 | a caught failure answers `success: false` with the fixed apology, no conversation id, and the error's message or "Unknown error" |
| Chat.SessionConversationRow | server/routers.ts:42-45 | the conversation created for a session is active, linked to no lead or user, and gets the next id |
| Chat.Resolve | server/routers.ts:39-51 | get-or-create always yields a conversation of the session that exists afterwards: the existing one with no change, or a new one inserted and read back |
| Chat.Exchange | server/routers.ts:53-107 | the steps after the conversation is known: never adds a conversation; success names that conversation; any failure answers the fixed apology |
| Chat.SendMessageSpec | server/routers.ts:36-115 | `sendMessage` on the tables: an unreachable store changes nothing and answers "Database not available"; success implies a reachable store and a conversation id |
| Chat.SendOutcome | server/routers.ts:25-116 | a send succeeds exactly when the store is reachable and the model answers; on success only the user message and the reply are stored, in that order, and the response is the stored reply; otherwise no message is stored and the response is the apology; leads, users and the clock are never touched |
| Chat.ExchangeOutcome | server/routers.ts:53-107 | once the conversation exists, the exchange succeeds exactly when the model answers, stores the two messages only on success, and never adds a conversation or touches leads, users or the clock |
| Chat.SendKeepsWellFormed | server/routers.ts:25-116 | a send keeps the store's invariant |
| Chat.FreshConversationIsEmpty | server/routers.ts:54 | a conversation just created has an empty history |
| Chat.MessagesAfterAppend | server/routers.ts:89-101 | two messages of the conversation stored at the current time come last in its history, in the order stored |
| Chat.HistoryAfterSend | server/routers.ts:119-134 | after a successful send, `getHistory` for the session is the earlier history followed by the user message and the reply |
| Chat.HistoryAfterExchange | server/routers.ts:89-101 | a successful exchange lists the user message and the reply last in the conversation |
| Chat.HistoryBeforeSend | server/routers.ts:119-134 | before a send, `getHistory` shows the history of the conversation the send will use |
| Chat.SendsConverge | server/routers.ts:39-47 | after one send has resolved a session, a later send creates no conversation and uses the same one |
| Chat.GetHistorySpec | server/routers.ts:119-134 | history is empty when the store is unreachable or the session has no conversation, and otherwise is that conversation's messages |
| Chat.GetHistory | server/routers.ts:119-134 | `getHistory` on a `Database` equals its specification and changes no table |
| Chat.SendMessage | server/routers.ts:25-116 | `sendMessage` on a `Database`, step by step, equals its specification |
| Chat.AskAndStore | server/routers.ts:53-107 | the steps after resolution equal the exchange specification |
| Chat.LeadRecord | server/routers.ts:152-162 | the lead insert carries the input's name and email, source "chatbot" and status "new" |
| Chat.SubmittedLeadRow | server/routers.ts:152-162 | the stored lead holds exactly the input's fields, source "chatbot" and status "new" |
| Chat.SubmitLeadSpec | server/routers.ts:137-175 | `submitLead` on the tables: rejected exactly when the email is invalid; an unreachable store changes nothing |
| Chat.SubmitLeadOutcome | server/routers.ts:137-175 | an invalid email is rejected with no change; otherwise success happens exactly when the store is reachable and appends exactly one lead; an unreachable store answers "Database not available" with no change |
| Chat.SubmittedLeadIsListed | server/routers.ts:179-188 | with fewer than 100 leads, a lead just submitted is in the listing |
| Chat.SubmittedLeadIsListedFirst | server/routers.ts:179-188 | however many leads exist, a lead just submitted heads the listing when every earlier lead was created before it |
| Chat.SubmitLead | server/routers.ts:137-175 | `submitLead` on a `Database` equals its specification |
| Chat.ListLeads | server/routers.ts:179-188 | the listing answers success with the newest 100 leads, or no leads when the store is unreachable |
| Widget.IsJsSpace | client/src/components/ChatBot.tsx:57 | the ECMAScript white space and line terminator characters that `trim` removes |
| Widget.LeadingSpaces | client/src/components/ChatBot.tsx:57 | counts the leading white space: everything before the count is white space and the next character is not |
| Widget.ContentEnd | client/src/components/ChatBot.tsx:57 | finds where the text ends: everything after it is white space, and the character before it is not |
| Widget.Trim | client/src/components/ChatBot.tsx:57 | `trim` is empty exactly when the input is all white space; otherwise it is the slice after the leading white space, with no white space at either end and only white space after it |
| Widget.HistoryEntry | client/src/components/ChatBot.tsx:38-43 | a stored message is shown under its own id, with its role, content and creation time |
| Widget.HistoryEntries | client/src/components/ChatBot.tsx:38-43 | the loaded transcript is the stored messages one for one, in the server's order |
| Widget.Hydrated | client/src/components/ChatBot.tsx:35-46 | a non-empty history replaces the transcript; an empty or missing one leaves it alone |
| Widget.ReplyEntries | client/src/components/ChatBot.tsx:76-93 | a settled call adds one assistant entry: the reply on success, the apology on a throw, and nothing on `success: false` |
| Widget.Shown | client/src/components/ChatBot.tsx:7-12 | each entry is read as its role and text |
| Widget.SessionStorage.constructor | client/src/components/ChatBot.tsx:24-25 | the storage starts with the given items |
| Widget.ChosenSessionId | client/src/components/ChatBot.tsx:24 | the stored session id is reused unless it is missing or empty; otherwise the fresh uuid is used |
| Widget.ChatBot.constructor | client/src/components/ChatBot.tsx:15-19 | a mounted widget has no transcript, empty input, is not loading and has no session |
| Widget.ChatBot.InitSession | client/src/components/ChatBot.tsx:23-27 | the chosen session id is non-empty, is written back to storage, and becomes the widget's session |
| Widget.ChatBot.SetInput | client/src/components/ChatBot.tsx:190-193 | typing, possible only while no reply is awaited, changes only the input |
| Widget.ChatBot.Hydrate | client/src/components/ChatBot.tsx:35-46 | the history effect sets the transcript to the hydrated one and changes nothing else |
| Widget.ChatBot.BeginSend | client/src/components/ChatBot.tsx:55-74 | possible only while no reply is awaited; nothing happens exactly when the trimmed input is empty or there is no session; otherwise the untrimmed text is shown as the user's message and sent, the input is cleared and the widget waits |
| Widget.ChatBot.FinishSend | client/src/components/ChatBot.tsx:76-96 | the settled reply adds its entries and the widget stops waiting |
| Widget.ChatBot.HandleSendMessage | client/src/components/ChatBot.tsx:55-97 | the whole handler, submitted while no reply is awaited: no change on a blank input or a missing session; otherwise the user's entry and then the reply's entries are added, the input is cleared and the widget stops waiting |
| Widget.TranscriptFollowsServer | client/src/components/ChatBot.tsx:66-83 | when the transcript shows the server's history, after a successful send it still shows, role for role and text for text, the server's new history |

## Left out

- Rendering, auto-scroll and the open/close state of the window: they do not affect the modelled state. The form's `disabled={isLoading}` on the input and the button is modelled as the requirement `!isLoading` of `SetInput`, `BeginSend` and `HandleSendMessage`. The button's other condition, a blank input, is the handler's own guard.
- Authentication, cookies, the `auth` router and the other procedures of the application router: they are outside the chatbot and lead core.
- Column widths (`varchar(255)` and the like), collation and case-insensitive comparison: the store is modelled with exact string equality and no length limits.
- Concurrency: React state updates, overlapping requests, and the interleaving of two sends for one session are not modelled. `HandleSendMessage` assumes nothing else happens while its call is pending.
- `Date` is a natural number clock reading. The database's `defaultNow()` and the widget's `new Date()` are the store's clock and method arguments.
- The store's clock does not move during a procedure, only between calls (`Store.Database.AdvanceClock`). In `Chat.Exchange` the new conversation, the user message and the reply all take the same reading, although the model call between them takes real time. This is also why the user message and the reply tie in `ORDER BY createdAt` (see `Store.MessagesOf` below).
- Store.MessagesOf: ties in `ORDER BY createdAt` keep insertion order. MySQL does not promise any order for equal keys, so the model's order is one the database may return, not the only one. This matters in practice: `createdAt` has second precision, so the user message and the reply of one send are almost always stamped alike. The database may list the reply first, and `Chat.HistoryAfterSend` and `Widget.TranscriptFollowsServer` rely on the insertion-order choice.
- Store.ConversationBySession: a LIMIT 1 with no ORDER BY may return any matching conversation. The model returns the first in table order. `Chat.SendsConverge` relies on this choice when a session has several conversations.
- Store.LatestLeads: ties in `ORDER BY createdAt DESC` keep insertion order, for the same reason.
- Store.Database.UpdateLeadStatus: takes a typed `LeadStatus`. A status text outside the enumeration, which the source lets through with `as any`, is not modelled.
- Store.Database.CreateLead: returns the new row's id in place of the driver's insert result object.
- Store.Database.CreateChatConversation: returns the new row's id in place of the driver's insert result object.
- Store.Database.CreateChatMessage: returns the new row's id in place of the driver's insert result object.
- Store.Database.UpdateLeadStatus: returns `()` in place of the driver's update result object.
- Store.Database.UpsertUser: states that the tables become the upsert for some insert values and update set. `Store.PrepareUpsert` states what those maps hold.
- Store.Database.ApplyUpsert: the same existential contract as `UpsertUser`.
- The driver errors a real database can raise (lost connections, constraint failures other than the message foreign key) are not modelled. The foreign keys `chatConversations.leadId` and `chatConversations.userId` (drizzle/schema.ts:54-55) are not checked on insert and are not part of `Store.Consistent`; `sendMessage` only ever stores NULL in both. Neither is the `try/catch` that logs and rethrows them in `upsertUser`.
- The "Failed to create lead" branch of `submitLead` is not modelled. Every error the model can raise is an `Error`, so only the message branch is reachable.
- Cascade deletes on the foreign keys: no operation of the core deletes rows.
- Chat.SendMessage: the `userInfo` input field is accepted and ignored by the source, so the model does not take it.
- The contents of the LLM gateway (`invokeLLM`) and `JSON.stringify` are not part of this model. They are the parameters `llm` and `stringify`.
- `uuidv4` is not part of this model. Its results are the method arguments `freshId`, `userKey` and `assistantKey`. The transcript's ids are a `MessageKey` (a stored id or a browser uuid), not the source's decimal id string.
- Email syntax validation (`z.string().email()`) is the parameter `isEmail`.
- Console logging is left out.
