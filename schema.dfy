/**
 * The four tables of the store: their enumerations, their column defaults and
 * which columns may hold NULL. A row read back from a table is a `...Row`; what
 * an insert supplies is a `New...`, where every column with a default may be
 * left unset. Not-null columns are plain fields, nullable ones are `Option`s,
 * ids are naturals handed out by the store and timestamps are naturals.
 */
module Schema {
  import opened Wrappers

  /** `users.role`: one of "user" or "admin", not null, default "user". */
  datatype UserRole = User | Admin {
    function Name(): (n: string)
      ensures UserRoleFromName(n) == Some(this)
    {
      match this
      case User => "user"
      case Admin => "admin"
    }
  }

  /** The enumeration value a stored text denotes, if any. */
  function UserRoleFromName(s: string): (r: Option<UserRole>)
    ensures r.Some? <==> s == "user" || s == "admin"
  {
    if s == "user" then Some(UserRole.User)
    else if s == "admin" then Some(Admin)
    else None
  }

  /** `leads.status`: one of five workflow states, nullable, default "new". */
  datatype LeadStatus = New | Contacted | Qualified | Converted | Rejected {
    function Name(): (n: string)
      ensures LeadStatusFromName(n) == Some(this)
    {
      match this
      case New => "new"
      case Contacted => "contacted"
      case Qualified => "qualified"
      case Converted => "converted"
      case Rejected => "rejected"
    }
  }

  function LeadStatusFromName(s: string): (r: Option<LeadStatus>)
    ensures r.Some? <==> s in ["new", "contacted", "qualified", "converted", "rejected"]
  {
    if s == "new" then Some(New)
    else if s == "contacted" then Some(Contacted)
    else if s == "qualified" then Some(Qualified)
    else if s == "converted" then Some(LeadStatus.Converted)
    else if s == "rejected" then Some(Rejected)
    else None
  }

  /** `chatConversations.status`: one of three states, nullable, default "active". */
  datatype ConversationStatus = Active | Closed | Converted {
    function Name(): (n: string)
      ensures ConversationStatusFromName(n) == Some(this)
    {
      match this
      case Active => "active"
      case Closed => "closed"
      case Converted => "converted"
    }
  }

  function ConversationStatusFromName(s: string): (r: Option<ConversationStatus>)
    ensures r.Some? <==> s == "active" || s == "closed" || s == "converted"
  {
    if s == "active" then Some(Active)
    else if s == "closed" then Some(Closed)
    else if s == "converted" then Some(ConversationStatus.Converted)
    else None
  }

  /** `chatMessages.role`: exactly "user" or "assistant", not null, no default. */
  datatype MessageRole = User | Assistant {
    function Name(): (n: string)
      ensures MessageRoleFromName(n) == Some(this)
    {
      match this
      case User => "user"
      case Assistant => "assistant"
    }
  }

  function MessageRoleFromName(s: string): (r: Option<MessageRole>)
    ensures r.Some? <==> s == "user" || s == "assistant"
  {
    if s == "user" then Some(MessageRole.User)
    else if s == "assistant" then Some(Assistant)
    else None
  }

  const DefaultUserRole: UserRole := UserRole.User
  const DefaultLeadStatus: LeadStatus := New
  const DefaultLeadSource: string := "chatbot"
  const DefaultConversationStatus: ConversationStatus := Active

  /**
   * What an insert supplies for one column: nothing (`undefined`, so the
   * column default applies), an explicit `null`, or a value.
   */
  datatype Field<+T> = Unset | Null | Set(value: T) {
    /** The value the column holds after the insert; `None` is SQL NULL. */
    function Stored(default: Option<T>): Option<T> {
      match this
      case Unset => default
      case Null => None
      case Set(v) => Some(v)
    }
  }

  datatype UserRow = UserRow(
    id: nat,
    openId: string,
    name: Option<string>,
    email: Option<string>,
    loginMethod: Option<string>,
    role: UserRole,
    createdAt: nat,
    updatedAt: nat,
    lastSignedIn: nat)

  datatype LeadRow = LeadRow(
    id: nat,
    name: string,
    email: string,
    phone: Option<string>,
    projectType: Option<string>,
    budget: Option<string>,
    timeline: Option<string>,
    message: Option<string>,
    source: Option<string>,
    status: Option<LeadStatus>,
    createdAt: nat,
    updatedAt: nat)

  datatype ConversationRow = ConversationRow(
    id: nat,
    leadId: Option<nat>,
    userId: Option<nat>,
    sessionId: string,
    status: Option<ConversationStatus>,
    createdAt: nat,
    updatedAt: nat)

  datatype MessageRow = MessageRow(
    id: nat,
    conversationId: nat,
    role: MessageRole,
    content: string,
    createdAt: nat)

  /**
   * An insert into `users`: the open id is required; the text columns may be
   * left out, nulled or given; the sign-in time and the role may be left out.
   */
  datatype NewUser = NewUser(
    openId: string,
    name: Field<string>,
    email: Field<string>,
    loginMethod: Field<string>,
    lastSignedIn: Option<nat>,
    role: Option<UserRole>)

  /** An insert into `leads`: name and email are required, everything else may be left out. */
  datatype NewLead = NewLead(
    name: string,
    email: string,
    phone: Field<string>,
    projectType: Field<string>,
    budget: Field<string>,
    timeline: Field<string>,
    message: Field<string>,
    source: Field<string>,
    status: Field<LeadStatus>)

  /** An insert into `chatConversations`: only the session id is required. */
  datatype NewConversation = NewConversation(
    sessionId: string,
    leadId: Field<nat>,
    userId: Field<nat>,
    status: Field<ConversationStatus>)

  /** An insert into `chatMessages`: conversation, role and content are all required. */
  datatype NewMessage = NewMessage(conversationId: nat, role: MessageRole, content: string)

  /** The row an insert into `leads` creates, given its id and the insertion time. */
  function LeadRowOf(ins: NewLead, id: nat, now: nat): (r: LeadRow)
    ensures r.id == id && r.createdAt == now && r.updatedAt == now
    ensures r.name == ins.name && r.email == ins.email
    ensures ins.source.Unset? ==> r.source == Some(DefaultLeadSource)
    ensures ins.status.Unset? ==> r.status == Some(DefaultLeadStatus)
    ensures ins.source.Set? ==> r.source == Some(ins.source.value)
    ensures ins.status.Set? ==> r.status == Some(ins.status.value)
    ensures ins.source.Null? ==> r.source == None
    ensures ins.status.Null? ==> r.status == None
    ensures r.phone == (if ins.phone.Set? then Some(ins.phone.value) else None)
    ensures r.projectType == (if ins.projectType.Set? then Some(ins.projectType.value) else None)
    ensures r.budget == (if ins.budget.Set? then Some(ins.budget.value) else None)
    ensures r.timeline == (if ins.timeline.Set? then Some(ins.timeline.value) else None)
    ensures r.message == (if ins.message.Set? then Some(ins.message.value) else None)
  {
    LeadRow(id, ins.name, ins.email,
      ins.phone.Stored(None), ins.projectType.Stored(None), ins.budget.Stored(None),
      ins.timeline.Stored(None), ins.message.Stored(None),
      ins.source.Stored(Some(DefaultLeadSource)), ins.status.Stored(Some(DefaultLeadStatus)),
      now, now)
  }

  /** The row an insert into `chatConversations` creates. */
  function ConversationRowOf(ins: NewConversation, id: nat, now: nat): (r: ConversationRow)
    ensures r.id == id && r.sessionId == ins.sessionId
    ensures r.createdAt == now && r.updatedAt == now
    ensures ins.status.Unset? ==> r.status == Some(DefaultConversationStatus)
    ensures ins.status.Set? ==> r.status == Some(ins.status.value)
    ensures ins.status.Null? ==> r.status == None
    ensures r.leadId == (if ins.leadId.Set? then Some(ins.leadId.value) else None)
    ensures r.userId == (if ins.userId.Set? then Some(ins.userId.value) else None)
  {
    ConversationRow(id, ins.leadId.Stored(None), ins.userId.Stored(None), ins.sessionId,
      ins.status.Stored(Some(DefaultConversationStatus)), now, now)
  }

  /** The row an insert into `chatMessages` creates. */
  function MessageRowOf(ins: NewMessage, id: nat, now: nat): (r: MessageRow)
    ensures r.id == id && r.createdAt == now
    ensures r.conversationId == ins.conversationId && r.role == ins.role && r.content == ins.content
  {
    MessageRow(id, ins.conversationId, ins.role, ins.content, now)
  }
}
