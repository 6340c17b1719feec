/**
 * The persistence adapter: a lazily created, process-wide connection handle
 * and the reads and writes the chat procedures issue. The tables themselves
 * are a `Tables` value; every read is a function of it (WHERE, ORDER BY and
 * LIMIT from module Query) and every write a function returning the next value.
 * The class `Database` holds the handle and the tables and runs each adapter
 * operation: first the handle initialisation, then the read or the write.
 */
module Store {
  import opened Wrappers
  import opened Schema
  import opened Query

  const DatabaseUnavailable: string := "Database not available"
  const OpenIdRequired: string := "User openId is required for upsert"
  /** What the store answers when a message names a conversation that does not exist. */
  const ForeignKeyViolation: string := "Cannot add or update a child row: a foreign key constraint fails"
  /** The default row count of `getLeads`. */
  const DefaultLeadLimit: nat := 50

  /** The four tables in insertion order, their auto-increment counters and the store's clock. */
  datatype Tables = Tables(
    users: seq<UserRow>,
    leads: seq<LeadRow>,
    conversations: seq<ConversationRow>,
    messages: seq<MessageRow>,
    nextUserId: nat,
    nextLeadId: nat,
    nextConversationId: nat,
    nextMessageId: nat,
    clock: nat)

  function ConversationIds(t: Tables): set<nat> {
    set i | 0 <= i < |t.conversations| :: t.conversations[i].id
  }

  /** Primary keys and open ids are unique. */
  ghost predicate KeysUnique(t: Tables) {
    && (forall i, j :: 0 <= i < j < |t.users| ==> t.users[i].id != t.users[j].id)
    && (forall i, j :: 0 <= i < j < |t.users| ==> t.users[i].openId != t.users[j].openId)
    && (forall i, j :: 0 <= i < j < |t.leads| ==> t.leads[i].id != t.leads[j].id)
    && (forall i, j :: 0 <= i < j < |t.conversations| ==> t.conversations[i].id != t.conversations[j].id)
    && (forall i, j :: 0 <= i < j < |t.messages| ==> t.messages[i].id != t.messages[j].id)
  }

  /**
   * Ids below the auto-increment counters, no creation or update time ahead
   * of the clock, and every message pointing at an existing conversation.
   */
  ghost predicate Consistent(t: Tables) {
    && (forall i :: 0 <= i < |t.users| ==>
          t.users[i].id < t.nextUserId && t.users[i].createdAt <= t.clock && t.users[i].updatedAt <= t.clock)
    && (forall i :: 0 <= i < |t.leads| ==>
          t.leads[i].id < t.nextLeadId && t.leads[i].createdAt <= t.clock && t.leads[i].updatedAt <= t.clock)
    && (forall i :: 0 <= i < |t.conversations| ==>
          t.conversations[i].id < t.nextConversationId && t.conversations[i].createdAt <= t.clock &&
          t.conversations[i].updatedAt <= t.clock)
    && (forall i :: 0 <= i < |t.messages| ==>
          t.messages[i].id < t.nextMessageId && t.messages[i].createdAt <= t.clock &&
          t.messages[i].conversationId in ConversationIds(t))
  }

  /** What the store guarantees of its contents. */
  ghost predicate WellFormed(t: Tables) {
    KeysUnique(t) && Consistent(t)
  }

  // ---------------------------------------------------------------------------
  // Reads

  function BySession(sessionId: string): ConversationRow -> bool {
    (c: ConversationRow) => c.sessionId == sessionId
  }

  /** `getChatConversationBySessionId` on a reachable store: the first conversation of the session. */
  function ConversationBySession(t: Tables, sessionId: string): (r: Option<ConversationRow>)
    ensures r.None? <==> forall i :: 0 <= i < |t.conversations| ==> t.conversations[i].sessionId != sessionId
    ensures r.Some? ==> r.value.sessionId == sessionId && r.value in t.conversations
  {
    First(t.conversations, BySession(sessionId))
  }

  /** `getChatConversation` on a reachable store. */
  function ConversationById(t: Tables, id: nat): (r: Option<ConversationRow>)
    ensures r.None? <==> id !in ConversationIds(t)
    ensures r.Some? ==> r.value.id == id && r.value in t.conversations
  {
    First(t.conversations, (c: ConversationRow) => c.id == id)
  }

  function InConversation(conversationId: nat): MessageRow -> bool {
    (m: MessageRow) => m.conversationId == conversationId
  }

  function MessageTime(m: MessageRow): int { m.createdAt }

  /** `getChatMessages` on a reachable store: the conversation's messages, oldest first. */
  function MessagesOf(t: Tables, conversationId: nat): (r: seq<MessageRow>)
    ensures SortedBy(r, MessageTime)
    ensures multiset(r) == multiset(Where(t.messages, InConversation(conversationId)))
    ensures forall i :: 0 <= i < |r| ==> r[i].conversationId == conversationId && r[i] in t.messages
  {
    var selected := Where(t.messages, InConversation(conversationId));
    var r := SortByKey(selected, MessageTime);
    assert forall i :: 0 <= i < |r| ==> r[i] in selected by {
      forall i | 0 <= i < |r| ensures r[i] in selected {
        assert r[i] in multiset(r);
      }
    }
    r
  }

  /** Every stored message of the conversation is in its history. */
  lemma MessagesOfComplete(t: Tables, conversationId: nat)
    ensures forall i :: 0 <= i < |t.messages| && t.messages[i].conversationId == conversationId ==>
      t.messages[i] in MessagesOf(t, conversationId)
  {
    var selected := Where(t.messages, InConversation(conversationId));
    WhereComplete(t.messages, InConversation(conversationId));
    forall i | 0 <= i < |t.messages| && t.messages[i].conversationId == conversationId
      ensures t.messages[i] in MessagesOf(t, conversationId)
    {
      assert t.messages[i] in multiset(selected);
    }
  }

  /** Sorting newest first: a larger creation time gives a smaller key. */
  function NewestFirst(l: LeadRow): int { -(l.createdAt as int) }

  function Min(a: nat, b: nat): nat { if a < b then a else b }

  /** `getLeads(limit)` on a reachable store: at most `limit` leads, newest first. */
  function LatestLeads(t: Tables, limit: nat): (r: seq<LeadRow>)
    ensures |r| == Min(limit, |t.leads|)
    ensures forall i, j :: 0 <= i < j < |r| ==> r[i].createdAt >= r[j].createdAt
    ensures multiset(r) <= multiset(t.leads)
  {
    var sorted := SortByKey(t.leads, NewestFirst);
    SortedPrefix(sorted, Min(limit, |sorted|), NewestFirst);
    sorted[..Min(limit, |sorted|)]
  }

  /** No lead that `getLeads` leaves out is newer than one it returns. */
  lemma LatestLeadsAreNewest(t: Tables, limit: nat)
    ensures forall i, k ::
      (0 <= i < |t.leads| && 0 <= k < |LatestLeads(t, limit)| && t.leads[i] !in LatestLeads(t, limit)) ==>
      t.leads[i].createdAt <= LatestLeads(t, limit)[k].createdAt
  {
    var sorted := SortByKey(t.leads, NewestFirst);
    var r := LatestLeads(t, limit);
    assert r == sorted[..|r|];
    assert forall q :: 0 <= q < |r| ==> sorted[q] in r;
    forall i, k | 0 <= i < |t.leads| && 0 <= k < |r| && t.leads[i] !in r
      ensures t.leads[i].createdAt <= r[k].createdAt
    {
      assert t.leads[i] in multiset(sorted);
      var p :| 0 <= p < |sorted| && sorted[p] == t.leads[i];
      assert k < |r| <= p;
      assert NewestFirst(sorted[k]) <= NewestFirst(sorted[p]);
    }
  }

  /** `getUserByOpenId` on a reachable store. */
  function UserByOpenId(t: Tables, openId: string): (r: Option<UserRow>)
    ensures r.None? <==> forall i :: 0 <= i < |t.users| ==> t.users[i].openId != openId
    ensures r.Some? ==> r.value.openId == openId && r.value in t.users
  {
    First(t.users, (u: UserRow) => u.openId == openId)
  }

  /** `getLead` on a reachable store. */
  function LeadById(t: Tables, id: nat): (r: Option<LeadRow>)
    ensures r.None? <==> forall i :: 0 <= i < |t.leads| ==> t.leads[i].id != id
    ensures r.Some? ==> r.value.id == id && r.value in t.leads
  {
    First(t.leads, (l: LeadRow) => l.id == id)
  }

  /** With unique primary keys, the lead `getLead` finds is every lead with that id. */
  lemma LeadByIdIsTheLead(t: Tables, id: nat)
    requires WellFormed(t)
    ensures forall i :: 0 <= i < |t.leads| && t.leads[i].id == id ==> LeadById(t, id) == Some(t.leads[i])
  {
    forall i | 0 <= i < |t.leads| && t.leads[i].id == id ensures LeadById(t, id) == Some(t.leads[i]) {
      var found := LeadById(t, id).value;
      var j :| 0 <= j < |t.leads| && t.leads[j] == found;
      assert i == j;
    }
  }

  /** With unique primary keys, the conversation `getChatConversation` finds is every one with that id. */
  lemma ConversationByIdIsTheConversation(t: Tables, id: nat)
    requires WellFormed(t)
    ensures forall i :: 0 <= i < |t.conversations| && t.conversations[i].id == id ==>
      ConversationById(t, id) == Some(t.conversations[i])
  {
    forall i | 0 <= i < |t.conversations| && t.conversations[i].id == id
      ensures ConversationById(t, id) == Some(t.conversations[i])
    {
      assert id in ConversationIds(t);
      var found := ConversationById(t, id).value;
      var j :| 0 <= j < |t.conversations| && t.conversations[j] == found;
      assert i == j;
    }
  }

  // ---------------------------------------------------------------------------
  // Writes

  /** An insert into `leads`: one row appended under a fresh id, stamped now. */
  function InsertLead(t: Tables, ins: NewLead): (t': Tables)
    ensures |t'.leads| == |t.leads| + 1 && t'.leads[..|t.leads|] == t.leads
    ensures t'.leads[|t.leads|] == LeadRowOf(ins, t.nextLeadId, t.clock)
    ensures t'.users == t.users && t'.conversations == t.conversations && t'.messages == t.messages
    ensures t'.clock == t.clock
    ensures t' == t.(leads := t'.leads, nextLeadId := t.nextLeadId + 1)
    ensures WellFormed(t) ==> WellFormed(t') && forall i :: 0 <= i < |t.leads| ==> t.leads[i].id != t.nextLeadId
  {
    t.(leads := t.leads + [LeadRowOf(ins, t.nextLeadId, t.clock)], nextLeadId := t.nextLeadId + 1)
  }

  /** An insert into `chatConversations`: one row appended under a fresh id, stamped now. */
  function InsertConversation(t: Tables, ins: NewConversation): (t': Tables)
    ensures t'.conversations == t.conversations + [ConversationRowOf(ins, t.nextConversationId, t.clock)]
    ensures t'.users == t.users && t'.leads == t.leads && t'.messages == t.messages
    ensures t'.clock == t.clock
    ensures t' == t.(conversations := t'.conversations, nextConversationId := t.nextConversationId + 1)
    ensures ConversationIds(t') == ConversationIds(t) + {t.nextConversationId}
    ensures WellFormed(t) ==> WellFormed(t') && t.nextConversationId !in ConversationIds(t)
  {
    var row := ConversationRowOf(ins, t.nextConversationId, t.clock);
    var t' := t.(conversations := t.conversations + [row], nextConversationId := t.nextConversationId + 1);
    assert ConversationIds(t') == ConversationIds(t) + {row.id} by {
      assert forall i :: 0 <= i < |t.conversations| ==> t'.conversations[i] == t.conversations[i];
      assert t'.conversations[|t.conversations|] == row;
    }
    t'
  }

  /**
   * An insert into `chatMessages`: one row appended under a fresh id, stamped
   * now, provided the conversation it names exists.
   */
  function InsertMessage(t: Tables, ins: NewMessage): (r: Result<Tables>)
    ensures r.Err? <==> ins.conversationId !in ConversationIds(t)
    ensures r.Err? ==> r.message == ForeignKeyViolation
    ensures r.Ok? ==> r.value.messages == t.messages + [MessageRowOf(ins, t.nextMessageId, t.clock)]
    ensures r.Ok? ==> (r.value.users == t.users && r.value.leads == t.leads &&
                       r.value.conversations == t.conversations && r.value.clock == t.clock)
    ensures r.Ok? ==> r.value == t.(messages := r.value.messages, nextMessageId := t.nextMessageId + 1)
    ensures r.Ok? && WellFormed(t) ==> WellFormed(r.value)
  {
    if ins.conversationId in ConversationIds(t) then
      var t' := t.(messages := t.messages + [MessageRowOf(ins, t.nextMessageId, t.clock)],
                   nextMessageId := t.nextMessageId + 1);
      assert ConversationIds(t') == ConversationIds(t);
      Ok(t')
    else
      Err(ForeignKeyViolation)
  }

  /**
   * `UPDATE leads SET status = ... WHERE id = ...`: every lead with that id
   * takes the status; a row whose status changes also takes the current time
   * as its update time, as MySQL's ON UPDATE CURRENT_TIMESTAMP does.
   */
  function SetLeadStatus(t: Tables, id: nat, status: LeadStatus): (t': Tables)
    ensures |t'.leads| == |t.leads|
    ensures forall i :: 0 <= i < |t.leads| ==>
      t'.leads[i] == if t.leads[i].id != id || t.leads[i].status == Some(status) then t.leads[i]
                     else t.leads[i].(status := Some(status), updatedAt := t.clock)
    ensures forall i :: 0 <= i < |t.leads| && t.leads[i].id == id ==> t'.leads[i].status == Some(status)
    ensures t'.users == t.users && t'.conversations == t.conversations && t'.messages == t.messages
    ensures t' == t.(leads := t'.leads)
    ensures WellFormed(t) ==> WellFormed(t')
  {
    var leads := seq(|t.leads|, i requires 0 <= i < |t.leads| =>
      if t.leads[i].id != id || t.leads[i].status == Some(status) then t.leads[i]
      else t.leads[i].(status := Some(status), updatedAt := t.clock));
    t.(leads := leads)
  }

  /** With unique primary keys, a status update changes at most one lead. */
  lemma SetLeadStatusChangesAtMostOne(t: Tables, id: nat, status: LeadStatus)
    requires WellFormed(t)
    ensures forall i, j :: 0 <= i < j < |t.leads| ==>
      SetLeadStatus(t, id, status).leads[i] == t.leads[i] || SetLeadStatus(t, id, status).leads[j] == t.leads[j]
  {
    var t' := SetLeadStatus(t, id, status);
    forall i, j | 0 <= i < j < |t.leads| ensures t'.leads[i] == t.leads[i] || t'.leads[j] == t.leads[j] {
      assert t.leads[i].id != t.leads[j].id;
    }
  }

  // ---------------------------------------------------------------------------
  // The user upsert: preparing the insert values and the update set

  /** The columns `upsertUser` may assign. */
  datatype UserColumn = OpenId | Name | Email | LoginMethod | LastSignedIn | Role

  /** A value assigned to a user column. */
  datatype Cell = Text(text: Option<string>) | Time(at: nat) | RoleCell(role: UserRole)

  /** The nullable text columns, in the order `upsertUser` visits them. */
  const TextColumns: seq<UserColumn> := [Name, Email, LoginMethod]

  /** What the caller supplied for a text column; every other column reads as left out. */
  function TextField(user: NewUser, column: UserColumn): Field<string> {
    match column
    case Name => user.name
    case Email => user.email
    case LoginMethod => user.loginMethod
    case _ => Unset
  }

  /**
   * A text column left out is in neither map; one given a value or null holds
   * that value (or null) in both.
   */
  ghost predicate NullableAssigned(user: NewUser, column: UserColumn,
                                   values: map<UserColumn, Cell>, updateSet: map<UserColumn, Cell>)
  {
    if TextField(user, column).Unset? then column !in values && column !in updateSet
    else
      var cell := Text(TextField(user, column).Stored(None));
      column in values && values[column] == cell && column in updateSet && updateSet[column] == cell
  }

  /**
   * The first step of `upsertUser`: the open id in the insert values, and
   * each nullable text column the caller supplied in both maps.
   */
  method AssignTextColumns(user: NewUser) returns (values: map<UserColumn, Cell>, updateSet: map<UserColumn, Cell>)
    ensures OpenId in values && values[OpenId] == Text(Some(user.openId)) && OpenId !in updateSet
    ensures NullableAssigned(user, Name, values, updateSet)
    ensures NullableAssigned(user, Email, values, updateSet)
    ensures NullableAssigned(user, LoginMethod, values, updateSet)
    ensures updateSet.Keys <= {Name, Email, LoginMethod}
    ensures LastSignedIn !in values && Role !in values
  {
    values := map[OpenId := Text(Some(user.openId))];
    updateSet := map[];
    for k := 0 to |TextColumns|
      invariant OpenId in values && values[OpenId] == Text(Some(user.openId))
      invariant forall c :: c in values ==> c == OpenId || c in TextColumns[..k]
      invariant forall c :: c in updateSet ==> c in TextColumns[..k]
      invariant forall j :: 0 <= j < k ==> NullableAssigned(user, TextColumns[j], values, updateSet)
    {
      var column := TextColumns[k];
      var field := TextField(user, column);
      if !field.Unset? {
        var normalized := Text(field.Stored(None));
        values := values[column := normalized];
        updateSet := updateSet[column := normalized];
      }
    }
    assert TextColumns[..|TextColumns|] == [Name, Email, LoginMethod];
    assert NullableAssigned(user, TextColumns[0], values, updateSet);
    assert NullableAssigned(user, TextColumns[1], values, updateSet);
    assert NullableAssigned(user, TextColumns[2], values, updateSet);
  }

  /**
   * The insert values and the update set `upsertUser` builds for `user` at
   * time `now`, with `ownerOpenId` the open id of the site's owner.
   */
  method PrepareUpsert(user: NewUser, ownerOpenId: string, now: nat)
    returns (values: map<UserColumn, Cell>, updateSet: map<UserColumn, Cell>)
    ensures OpenId in values && values[OpenId] == Text(Some(user.openId)) && OpenId !in updateSet
    ensures NullableAssigned(user, Name, values, updateSet)
    ensures NullableAssigned(user, Email, values, updateSet)
    ensures NullableAssigned(user, LoginMethod, values, updateSet)
    ensures LastSignedIn in values && values[LastSignedIn] == Time(user.lastSignedIn.GetOr(now))
    ensures user.lastSignedIn.Some? ==>
      LastSignedIn in updateSet && updateSet[LastSignedIn] == Time(user.lastSignedIn.value)
    ensures user.role.Some? ==>
      Role in values && values[Role] == RoleCell(user.role.value) &&
      Role in updateSet && updateSet[Role] == RoleCell(user.role.value)
    ensures user.role.None? && user.openId == ownerOpenId ==>
      Role in values && values[Role] == RoleCell(Admin) && Role in updateSet && updateSet[Role] == RoleCell(Admin)
    ensures user.role.None? && user.openId != ownerOpenId ==> Role !in values && Role !in updateSet
    ensures updateSet.Keys != {}
    ensures updateSet.Keys <= {Name, Email, LoginMethod, LastSignedIn, Role}
    ensures LastSignedIn in updateSet <==>
      user.lastSignedIn.Some? ||
      (user.name.Unset? && user.email.Unset? && user.loginMethod.Unset? &&
       user.role.None? && user.openId != ownerOpenId)
    ensures user.name.Unset? && user.email.Unset? && user.loginMethod.Unset? && user.lastSignedIn.None? &&
            user.role.None? && user.openId != ownerOpenId ==>
      updateSet == map[LastSignedIn := Time(now)]
  {
    values, updateSet := AssignTextColumns(user);
    if user.lastSignedIn.Some? {
      values := values[LastSignedIn := Time(user.lastSignedIn.value)];
      updateSet := updateSet[LastSignedIn := Time(user.lastSignedIn.value)];
    }
    if user.role.Some? {
      values := values[Role := RoleCell(user.role.value)];
      updateSet := updateSet[Role := RoleCell(user.role.value)];
    } else if user.openId == ownerOpenId {
      values := values[Role := RoleCell(Admin)];
      updateSet := updateSet[Role := RoleCell(Admin)];
    }
    if LastSignedIn !in values {
      values := values[LastSignedIn := Time(now)];
    }
    assert (user.name.Unset? && user.email.Unset? && user.loginMethod.Unset? && user.lastSignedIn.None? &&
            user.role.None? && user.openId != ownerOpenId) ==> updateSet.Keys == {};
    assert user.lastSignedIn.Some? ==> LastSignedIn in updateSet.Keys;
    if updateSet.Keys == {} {
      updateSet := map[LastSignedIn := Time(now)];
      assert LastSignedIn in updateSet.Keys;
    }
  }

  // ---------------------------------------------------------------------------
  // The user upsert: applying it

  function TextCell(m: map<UserColumn, Cell>, column: UserColumn, otherwise: Option<string>): Option<string> {
    if column in m && m[column].Text? then m[column].text else otherwise
  }

  function TimeCell(m: map<UserColumn, Cell>, column: UserColumn, otherwise: nat): nat {
    if column in m && m[column].Time? then m[column].at else otherwise
  }

  function RoleOf(m: map<UserColumn, Cell>, otherwise: UserRole): UserRole {
    if Role in m && m[Role].RoleCell? then m[Role].role else otherwise
  }

  /** The row a fresh insert into `users` creates; columns left out take their defaults. */
  function UserRowOf(openId: string, values: map<UserColumn, Cell>, id: nat, now: nat): (r: UserRow)
    ensures r.openId == openId && r.id == id && r.createdAt == now && r.updatedAt == now
    ensures Role !in values ==> r.role == DefaultUserRole
    ensures Role in values && values[Role].RoleCell? ==> r.role == values[Role].role
    ensures LastSignedIn !in values ==> r.lastSignedIn == now
    ensures LastSignedIn in values && values[LastSignedIn].Time? ==> r.lastSignedIn == values[LastSignedIn].at
    ensures Name in values && values[Name].Text? ==> r.name == values[Name].text
    ensures Email in values && values[Email].Text? ==> r.email == values[Email].text
    ensures LoginMethod in values && values[LoginMethod].Text? ==> r.loginMethod == values[LoginMethod].text
    ensures Name !in values ==> r.name.None?
    ensures Email !in values ==> r.email.None?
    ensures LoginMethod !in values ==> r.loginMethod.None?
  {
    UserRow(id, openId, TextCell(values, Name, None), TextCell(values, Email, None),
      TextCell(values, LoginMethod, None), RoleOf(values, DefaultUserRole), now, now,
      TimeCell(values, LastSignedIn, now))
  }

  /** The ON DUPLICATE KEY UPDATE assignments applied to an existing row. */
  function UpdatedUser(u: UserRow, updateSet: map<UserColumn, Cell>): (r: UserRow)
    ensures r.id == u.id && r.openId == u.openId && r.createdAt == u.createdAt && r.updatedAt == u.updatedAt
    ensures Name !in updateSet ==> r.name == u.name
    ensures Email !in updateSet ==> r.email == u.email
    ensures LoginMethod !in updateSet ==> r.loginMethod == u.loginMethod
    ensures Role !in updateSet ==> r.role == u.role
    ensures LastSignedIn !in updateSet ==> r.lastSignedIn == u.lastSignedIn
    ensures Name in updateSet && updateSet[Name].Text? ==> r.name == updateSet[Name].text
    ensures Email in updateSet && updateSet[Email].Text? ==> r.email == updateSet[Email].text
    ensures LoginMethod in updateSet && updateSet[LoginMethod].Text? ==> r.loginMethod == updateSet[LoginMethod].text
    ensures Role in updateSet && updateSet[Role].RoleCell? ==> r.role == updateSet[Role].role
    ensures LastSignedIn in updateSet && updateSet[LastSignedIn].Time? ==> r.lastSignedIn == updateSet[LastSignedIn].at
  {
    u.(name := TextCell(updateSet, Name, u.name),
       email := TextCell(updateSet, Email, u.email),
       loginMethod := TextCell(updateSet, LoginMethod, u.loginMethod),
       role := RoleOf(updateSet, u.role),
       lastSignedIn := TimeCell(updateSet, LastSignedIn, u.lastSignedIn))
  }

  function ByOpenId(openId: string): UserRow -> bool {
    (u: UserRow) => u.openId == openId
  }

  /**
   * `INSERT INTO users ... ON DUPLICATE KEY UPDATE`: the row with that open id
   * takes the update set (and, if anything changed, the current time as its
   * update time); without such a row, a new one is inserted from the values.
   */
  function UpsertUserRow(t: Tables, openId: string, values: map<UserColumn, Cell>,
                         updateSet: map<UserColumn, Cell>): (t': Tables)
    ensures t'.leads == t.leads && t'.conversations == t.conversations && t'.messages == t.messages
    ensures t'.clock == t.clock && t'.nextLeadId == t.nextLeadId
    ensures t'.nextConversationId == t.nextConversationId && t'.nextMessageId == t.nextMessageId
    ensures UserByOpenId(t, openId).None? ==>
      t'.users == t.users + [UserRowOf(openId, values, t.nextUserId, t.clock)] &&
      t'.nextUserId == t.nextUserId + 1
    ensures UserByOpenId(t, openId).Some? ==>
      t'.nextUserId == t.nextUserId && |t'.users| == |t.users| &&
      forall j :: 0 <= j < |t.users| && t.users[j].openId != openId ==> t'.users[j] == t.users[j]
  {
    match FirstIndex(t.users, ByOpenId(openId))
    case Some(i) =>
      var updated := UpdatedUser(t.users[i], updateSet);
      var row := if updated != t.users[i] then updated.(updatedAt := t.clock) else updated;
      t.(users := t.users[i := row])
    case None =>
      t.(users := t.users + [UserRowOf(openId, values, t.nextUserId, t.clock)], nextUserId := t.nextUserId + 1)
  }

  /**
   * After an upsert the open id has a row: the one it had before, updated in
   * place under the same id, or a new one built from the insert values.
   */
  lemma UpsertFindsUser(t: Tables, openId: string, values: map<UserColumn, Cell>, updateSet: map<UserColumn, Cell>)
    ensures UserByOpenId(UpsertUserRow(t, openId, values, updateSet), openId).Some?
    ensures UserByOpenId(t, openId).Some? ==>
      |UpsertUserRow(t, openId, values, updateSet).users| == |t.users| &&
      UserByOpenId(UpsertUserRow(t, openId, values, updateSet), openId).value.id == UserByOpenId(t, openId).value.id
    ensures UserByOpenId(t, openId).Some? ==>
      var before := UserByOpenId(t, openId).value;
      var updated := UpdatedUser(before, updateSet);
      UserByOpenId(UpsertUserRow(t, openId, values, updateSet), openId).value ==
        if updated != before then updated.(updatedAt := t.clock) else updated
    ensures UserByOpenId(t, openId).None? ==>
      UserByOpenId(UpsertUserRow(t, openId, values, updateSet), openId).value ==
        UserRowOf(openId, values, t.nextUserId, t.clock)
  {
    var t' := UpsertUserRow(t, openId, values, updateSet);
    match FirstIndex(t.users, ByOpenId(openId))
    case Some(i) =>
      assert forall j :: 0 <= j < i ==> t'.users[j] == t.users[j];
      FirstIndexAt(t'.users, ByOpenId(openId), i);
    case None =>
      var row := UserRowOf(openId, values, t.nextUserId, t.clock);
      FirstIndexAppendMissing(t.users, [row], ByOpenId(openId));
  }

  /** An upsert keeps open ids unique and every other invariant of the store. */
  lemma UpsertKeepsWellFormed(t: Tables, openId: string, values: map<UserColumn, Cell>, updateSet: map<UserColumn, Cell>)
    requires WellFormed(t)
    ensures WellFormed(UpsertUserRow(t, openId, values, updateSet))
  {
    match FirstIndex(t.users, ByOpenId(openId))
    case Some(i) =>
      var updated := UpdatedUser(t.users[i], updateSet);
      UserReplacedKeepsWellFormed(t, i, if updated != t.users[i] then updated.(updatedAt := t.clock) else updated);
    case None =>
      UserAppendedKeepsWellFormed(t, UserRowOf(openId, values, t.nextUserId, t.clock));
  }

  /** Replacing a user row by one with the same id, open id and creation time keeps the store well formed. */
  lemma UserReplacedKeepsWellFormed(t: Tables, i: nat, row: UserRow)
    requires WellFormed(t) && i < |t.users|
    requires row.id == t.users[i].id && row.openId == t.users[i].openId
    requires row.createdAt == t.users[i].createdAt && row.updatedAt <= t.clock
    ensures WellFormed(t.(users := t.users[i := row]))
  {
  }

  /** Appending a user row under the next id, with an open id no row has, keeps the store well formed. */
  lemma UserAppendedKeepsWellFormed(t: Tables, row: UserRow)
    requires WellFormed(t)
    requires forall j :: 0 <= j < |t.users| ==> t.users[j].openId != row.openId
    requires row.id == t.nextUserId && row.createdAt <= t.clock && row.updatedAt <= t.clock
    ensures WellFormed(t.(users := t.users + [row], nextUserId := t.nextUserId + 1))
  {
  }

  lemma FirstIndexAt<T>(s: seq<T>, p: T -> bool, i: nat)
    requires i < |s| && p(s[i]) && forall j :: 0 <= j < i ==> !p(s[j])
    ensures FirstIndex(s, p) == Some(i)
  {
  }

  // ---------------------------------------------------------------------------
  // The adapter

  /** The lazily created connection handle. */
  datatype Handle = Handle(url: string)

  class Database {
    /** The configured `DATABASE_URL`, if any; an empty one counts as unset. */
    const url: Option<string>
    /** Whether the driver accepts `url` when asked for a handle. */
    const urlAccepted: bool
    /** The shared handle, unset until the first successful initialisation. */
    var handle: Option<Handle>
    var tables: Tables

    ghost predicate Valid()
      reads this
    {
      WellFormed(tables) && (handle.Some? ==> url == Some(handle.value.url) && handle.value.url != "")
    }

    constructor (url: Option<string>, urlAccepted: bool, tables: Tables)
      requires WellFormed(tables)
      ensures Valid() && this.url == url && this.urlAccepted == urlAccepted
      ensures handle == None && this.tables == tables
    {
      this.url := url;
      this.urlAccepted := urlAccepted;
      handle := None;
      this.tables := tables;
    }

    /** The handle `getDb` returns when called in the current state. */
    function Connected(): (h: Option<Handle>)
      reads this
      ensures handle.Some? ==> h == handle
      ensures handle.None? ==> (h.Some? <==> url.Some? && url.value != "" && urlAccepted)
      ensures h.Some? ==> url == Some(h.value.url) || h == handle
    {
      if handle.None? && url.Some? && url.value != "" && urlAccepted then Some(Handle(url.value)) else handle
    }

    /**
     * `getDb`: creates the handle when it is unset and a non-empty URL is
     * configured (leaving it unset when the driver refuses the URL), then
     * returns it.
     */
    method GetDb() returns (db: Option<Handle>)
      requires Valid()
      modifies this
      ensures Valid()
      ensures db == handle == old(Connected())
      ensures old(handle).Some? ==> handle == old(handle)
      ensures tables == old(tables)
      ensures Connected() == handle
    {
      if handle.None? && url.Some? && url.value != "" {
        if urlAccepted {
          handle := Some(Handle(url.value));
        } else {
          handle := None;
        }
      }
      db := handle;
    }

    /** Time passes: later writes are stamped with a later clock reading. */
    method AdvanceClock(elapsed: nat)
      requires Valid()
      modifies this
      ensures Valid() && handle == old(handle)
      ensures tables == old(tables).(clock := old(tables.clock) + elapsed)
    {
      tables := tables.(clock := tables.clock + elapsed);
    }

    /**
     * `upsertUser`: rejects a missing open id before touching the store, does
     * nothing when the store is unreachable, and otherwise upserts the row.
     */
    method UpsertUser(user: NewUser, ownerOpenId: string) returns (r: Result<()>)
      requires Valid()
      modifies this
      ensures Valid()
      ensures user.openId == "" ==> r == Err(OpenIdRequired) && handle == old(handle) && tables == old(tables)
      ensures user.openId != "" ==> r == Ok(()) && handle == old(Connected())
      ensures user.openId != "" && handle.None? ==> tables == old(tables)
      ensures user.openId != "" && handle.Some? ==>
        exists values, updateSet :: tables == UpsertUserRow(old(tables), user.openId, values, updateSet)
      ensures user.openId != "" && handle.Some? ==> UserByOpenId(tables, user.openId).Some?
    {
      if user.openId == "" {
        return Err(OpenIdRequired);
      }
      var db := GetDb();
      if db.None? {
        return Ok(());
      }
      ApplyUpsert(user, ownerOpenId);
      r := Ok(());
    }

    /** The insert-or-update itself, on a reachable store. */
    method ApplyUpsert(user: NewUser, ownerOpenId: string)
      requires Valid() && handle.Some?
      modifies this
      ensures Valid() && handle == old(handle)
      ensures exists values, updateSet :: tables == UpsertUserRow(old(tables), user.openId, values, updateSet)
      ensures UserByOpenId(tables, user.openId).Some?
    {
      var values, updateSet := PrepareUpsert(user, ownerOpenId, tables.clock);
      var before := tables;
      UpsertFindsUser(before, user.openId, values, updateSet);
      UpsertKeepsWellFormed(before, user.openId, values, updateSet);
      tables := UpsertUserRow(before, user.openId, values, updateSet);
    }

    method GetUserByOpenId(openId: string) returns (r: Option<UserRow>)
      requires Valid()
      modifies this
      ensures Valid() && handle == old(Connected()) && tables == old(tables)
      ensures r == if handle.Some? then UserByOpenId(tables, openId) else None
    {
      var db := GetDb();
      if db.None? {
        return None;
      }
      r := UserByOpenId(tables, openId);
    }

    /** `createLead`: the new lead's id, or the unavailable-store error. */
    method CreateLead(lead: NewLead) returns (r: Result<nat>)
      requires Valid()
      modifies this
      ensures Valid() && handle == old(Connected())
      ensures handle.None? ==> r == Err(DatabaseUnavailable) && tables == old(tables)
      ensures handle.Some? ==> r == Ok(old(tables).nextLeadId) && tables == InsertLead(old(tables), lead)
    {
      var db := GetDb();
      if db.None? {
        return Err(DatabaseUnavailable);
      }
      r := Ok(tables.nextLeadId);
      tables := InsertLead(tables, lead);
    }

    method GetLead(id: nat) returns (r: Option<LeadRow>)
      requires Valid()
      modifies this
      ensures Valid() && handle == old(Connected()) && tables == old(tables)
      ensures r == if handle.Some? then LeadById(tables, id) else None
    {
      var db := GetDb();
      if db.None? {
        return None;
      }
      r := LeadById(tables, id);
    }

    /** `getLeads(limit)`, with `DefaultLeadLimit` when the caller gives none. */
    method GetLeads(limit: nat := DefaultLeadLimit) returns (r: seq<LeadRow>)
      requires Valid()
      modifies this
      ensures Valid() && handle == old(Connected()) && tables == old(tables)
      ensures r == if handle.Some? then LatestLeads(tables, limit) else []
    {
      var db := GetDb();
      if db.None? {
        return [];
      }
      r := LatestLeads(tables, limit);
    }

    method UpdateLeadStatus(id: nat, status: LeadStatus) returns (r: Result<()>)
      requires Valid()
      modifies this
      ensures Valid() && handle == old(Connected())
      ensures handle.None? ==> r == Err(DatabaseUnavailable) && tables == old(tables)
      ensures handle.Some? ==> r == Ok(()) && tables == SetLeadStatus(old(tables), id, status)
    {
      var db := GetDb();
      if db.None? {
        return Err(DatabaseUnavailable);
      }
      tables := SetLeadStatus(tables, id, status);
      r := Ok(());
    }

    /** `createChatConversation`: the new conversation's id, or the unavailable-store error. */
    method CreateChatConversation(conversation: NewConversation) returns (r: Result<nat>)
      requires Valid()
      modifies this
      ensures Valid() && handle == old(Connected())
      ensures handle.None? ==> r == Err(DatabaseUnavailable) && tables == old(tables)
      ensures handle.Some? ==>
        r == Ok(old(tables).nextConversationId) && tables == InsertConversation(old(tables), conversation)
    {
      var db := GetDb();
      if db.None? {
        return Err(DatabaseUnavailable);
      }
      r := Ok(tables.nextConversationId);
      tables := InsertConversation(tables, conversation);
    }

    method GetChatConversation(id: nat) returns (r: Option<ConversationRow>)
      requires Valid()
      modifies this
      ensures Valid() && handle == old(Connected()) && tables == old(tables)
      ensures r == if handle.Some? then ConversationById(tables, id) else None
    {
      var db := GetDb();
      if db.None? {
        return None;
      }
      r := ConversationById(tables, id);
    }

    method GetChatConversationBySessionId(sessionId: string) returns (r: Option<ConversationRow>)
      requires Valid()
      modifies this
      ensures Valid() && handle == old(Connected()) && tables == old(tables)
      ensures r == if handle.Some? then ConversationBySession(tables, sessionId) else None
    {
      var db := GetDb();
      if db.None? {
        return None;
      }
      r := ConversationBySession(tables, sessionId);
    }

    /** `createChatMessage`: fails when the store is unreachable or the conversation does not exist. */
    method CreateChatMessage(message: NewMessage) returns (r: Result<nat>)
      requires Valid()
      modifies this
      ensures Valid() && handle == old(Connected())
      ensures handle.None? ==> r == Err(DatabaseUnavailable) && tables == old(tables)
      ensures handle.Some? ==> match InsertMessage(old(tables), message)
        case Err(e) => r == Err(e) && tables == old(tables)
        case Ok(t') => r == Ok(old(tables).nextMessageId) && tables == t'
    {
      var db := GetDb();
      if db.None? {
        return Err(DatabaseUnavailable);
      }
      match InsertMessage(tables, message)
      case Err(e) =>
        r := Err(e);
      case Ok(t') =>
        r := Ok(tables.nextMessageId);
        tables := t';
    }

    method GetChatMessages(conversationId: nat) returns (r: seq<MessageRow>)
      requires Valid()
      modifies this
      ensures Valid() && handle == old(Connected()) && tables == old(tables)
      ensures r == if handle.Some? then MessagesOf(tables, conversationId) else []
    {
      var db := GetDb();
      if db.None? {
        return [];
      }
      r := MessagesOf(tables, conversationId);
    }
  }
}
