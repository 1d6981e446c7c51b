/**
  The tables of the advocacy tracker: closed enumerations with the string
  literals that travel on the wire, the document shapes, the declared
  secondary indexes, and the database as one table per document type.

  Storage-level validation is switched off, so a stored document is whatever
  a handler inserted; the enumerations are closed only because every handler
  validates its arguments against the literal unions (`Decode` below).
 */
module Schema {
  import opened Results
  import opened Store

  // ---------------------------------------------------------------------
  // Closed enumerations and their literals

  datatype IssueStatus = Active | Monitoring | Archived | Resolved | Blocked
  datatype Priority = High | Medium | Low
  datatype TaskStatus = Todo | InProgress | Done
  datatype Level = Federal | State | Local
  datatype InteractionType = Call | Email | Meeting | Letter
  datatype Outcome = Positive | Neutral | Negative | NoResponse
  datatype FollowupType = Call | Email | Meeting
  datatype FollowupStatus = Pending | Completed | Cancelled
  datatype Style = Formal | Casual

  function IssueStatusLiteral(s: IssueStatus): string {
    match s
    case Active => "active"
    case Monitoring => "monitoring"
    case Archived => "archived"
    case Resolved => "resolved"
    case Blocked => "blocked"
  }

  function PriorityLiteral(p: Priority): string {
    match p
    case High => "high"
    case Medium => "medium"
    case Low => "low"
  }

  function TaskStatusLiteral(s: TaskStatus): string {
    match s
    case Todo => "todo"
    case InProgress => "in_progress"
    case Done => "done"
  }

  function LevelLiteral(l: Level): string {
    match l
    case Federal => "federal"
    case State => "state"
    case Local => "local"
  }

  function InteractionTypeLiteral(t: InteractionType): string {
    match t
    case Call => "call"
    case Email => "email"
    case Meeting => "meeting"
    case Letter => "letter"
  }

  function OutcomeLiteral(o: Outcome): string {
    match o
    case Positive => "positive"
    case Neutral => "neutral"
    case Negative => "negative"
    case NoResponse => "no_response"
  }

  function FollowupTypeLiteral(t: FollowupType): string {
    match t
    case Call => "call"
    case Email => "email"
    case Meeting => "meeting"
  }

  function FollowupStatusLiteral(s: FollowupStatus): string {
    match s
    case Pending => "pending"
    case Completed => "completed"
    case Cancelled => "cancelled"
  }

  function StyleLiteral(s: Style): string {
    match s
    case Formal => "formal"
    case Casual => "casual"
  }

  const IssueStatuses: seq<IssueStatus> := [Active, Monitoring, Archived, Resolved, Blocked]
  const Priorities: seq<Priority> := [High, Medium, Low]
  const TaskStatuses: seq<TaskStatus> := [Todo, InProgress, Done]
  const Levels: seq<Level> := [Federal, State, Local]
  const InteractionTypes: seq<InteractionType> :=
    [InteractionType.Call, InteractionType.Email, InteractionType.Meeting, Letter]
  const Outcomes: seq<Outcome> := [Positive, Neutral, Negative, NoResponse]
  const FollowupTypes: seq<FollowupType> := [FollowupType.Call, FollowupType.Email, FollowupType.Meeting]
  const FollowupStatuses: seq<FollowupStatus> := [Pending, Completed, Cancelled]
  const Styles: seq<Style> := [Formal, Casual]

  /**
    A `v.union(v.literal(..), ..)` validator: the member of `all` whose literal
    is `s`, or nothing when `s` is none of the literals.
   */
  function Decode<E>(all: seq<E>, literal: E -> string, s: string): (r: Option<E>)
    ensures r.Some? ==> r.value in all && literal(r.value) == s
    ensures r.None? ==> forall e | e in all :: literal(e) != s
  {
    if all == [] then None
    else if literal(all[0]) == s then Some(all[0])
    else Decode(all[1..], literal, s)
  }

  /** With distinct literals, a validator accepts a string exactly when it is the literal of that member. */
  lemma DecodeExact<E>(all: seq<E>, literal: E -> string, s: string, e: E)
    requires e in all
    requires forall i, j | 0 <= i < j < |all| :: literal(all[i]) != literal(all[j])
    ensures Decode(all, literal, s) == Some(e) <==> literal(e) == s
  {
  }

  function ParseIssueStatus(s: string): Option<IssueStatus> { Decode(IssueStatuses, IssueStatusLiteral, s) }
  function ParsePriority(s: string): Option<Priority> { Decode(Priorities, PriorityLiteral, s) }
  function ParseTaskStatus(s: string): Option<TaskStatus> { Decode(TaskStatuses, TaskStatusLiteral, s) }
  function ParseLevel(s: string): Option<Level> { Decode(Levels, LevelLiteral, s) }
  function ParseInteractionType(s: string): Option<InteractionType> { Decode(InteractionTypes, InteractionTypeLiteral, s) }
  function ParseOutcome(s: string): Option<Outcome> { Decode(Outcomes, OutcomeLiteral, s) }
  function ParseFollowupType(s: string): Option<FollowupType> { Decode(FollowupTypes, FollowupTypeLiteral, s) }
  function ParseFollowupStatus(s: string): Option<FollowupStatus> { Decode(FollowupStatuses, FollowupStatusLiteral, s) }
  function ParseStyle(s: string): Option<Style> { Decode(Styles, StyleLiteral, s) }

  /** Issue status and priority are closed unions of exactly their literals. */
  lemma IssueEnumsClosed(s: string, st: IssueStatus, p: Priority)
    ensures ParseIssueStatus(s) == Some(st) <==> IssueStatusLiteral(st) == s
    ensures ParsePriority(s) == Some(p) <==> PriorityLiteral(p) == s
  {
    DecodeExact(IssueStatuses, IssueStatusLiteral, s, st);
    DecodeExact(Priorities, PriorityLiteral, s, p);
  }

  /** Equal status or priority literals mean equal values. */
  lemma IssueLiteralsInjective(a: IssueStatus, b: IssueStatus, p: Priority, q: Priority)
    ensures IssueStatusLiteral(a) == IssueStatusLiteral(b) ==> a == b
    ensures PriorityLiteral(p) == PriorityLiteral(q) ==> p == q
  {
    IssueEnumsClosed(IssueStatusLiteral(a), a, p);
    IssueEnumsClosed(IssueStatusLiteral(a), b, p);
    IssueEnumsClosed(PriorityLiteral(p), a, p);
    IssueEnumsClosed(PriorityLiteral(p), a, q);
  }

  /** Representative level, interaction type and outcome are closed unions of exactly their literals. */
  lemma RepresentativeAndInteractionEnumsClosed(s: string, l: Level, t: InteractionType, o: Outcome, st: Style)
    ensures ParseLevel(s) == Some(l) <==> LevelLiteral(l) == s
    ensures ParseInteractionType(s) == Some(t) <==> InteractionTypeLiteral(t) == s
    ensures ParseOutcome(s) == Some(o) <==> OutcomeLiteral(o) == s
    ensures ParseStyle(s) == Some(st) <==> StyleLiteral(st) == s
  {
    DecodeExact(Levels, LevelLiteral, s, l);
    DecodeExact(InteractionTypes, InteractionTypeLiteral, s, t);
    DecodeExact(Outcomes, OutcomeLiteral, s, o);
    DecodeExact(Styles, StyleLiteral, s, st);
  }

  /** Task status, follow-up type and follow-up status are closed unions of exactly their literals. */
  lemma TaskAndFollowupEnumsClosed(s: string, ts: TaskStatus, ft: FollowupType, fs: FollowupStatus)
    ensures ParseTaskStatus(s) == Some(ts) <==> TaskStatusLiteral(ts) == s
    ensures ParseFollowupType(s) == Some(ft) <==> FollowupTypeLiteral(ft) == s
    ensures ParseFollowupStatus(s) == Some(fs) <==> FollowupStatusLiteral(fs) == s
  {
    DecodeExact(TaskStatuses, TaskStatusLiteral, s, ts);
    DecodeExact(FollowupTypes, FollowupTypeLiteral, s, ft);
    DecodeExact(FollowupStatuses, FollowupStatusLiteral, s, fs);
  }

  /** Equal task status or priority literals mean equal values. */
  lemma TaskLiteralsInjective(a: TaskStatus, b: TaskStatus, p: Priority, q: Priority)
    ensures TaskStatusLiteral(a) == TaskStatusLiteral(b) ==> a == b
    ensures PriorityLiteral(p) == PriorityLiteral(q) ==> p == q
  {
    TaskAndFollowupEnumsClosed(TaskStatusLiteral(a), a, FollowupType.Call, Pending);
    TaskAndFollowupEnumsClosed(TaskStatusLiteral(a), b, FollowupType.Call, Pending);
    IssueEnumsClosed(PriorityLiteral(p), Active, p);
    IssueEnumsClosed(PriorityLiteral(p), Active, q);
  }

  // ---------------------------------------------------------------------
  // Documents

  /** A field value as an index sees it. */
  datatype Value = Undefined | Str(s: string) | Num(n: int) | Ref(id: Id)

  datatype NotificationSettings = NotificationSettings(email: bool, sms: Option<bool>, push: Option<bool>)
  datatype Preferences = Preferences(notificationSettings: NotificationSettings, defaultReminderTime: Option<int>)

  /** `tokenIdentifier` is declared required, but the profile store inserts users without one. */
  datatype User = User(name: string, email: string, tokenIdentifier: Option<string>, preferences: Option<Preferences>)

  datatype ContactInfo = ContactInfo(email: Option<string>, phone: Option<string>, officeAddress: Option<string>)
  datatype CommunicationPreferences =
    CommunicationPreferences(preferredStyle: Option<Style>, keyInterests: Option<seq<string>>, bestPractices: Option<seq<string>>)

  datatype Representative = Representative(
    userId: Id, name: string, title: string, office: string, level: Level, district: Option<string>,
    contactInfo: ContactInfo, notes: Option<string>, communicationPreferences: Option<CommunicationPreferences>)

  datatype MessageFeedback =
    MessageFeedback(originalDraft: Option<string>, finalVersion: Option<string>, whatWorked: Option<seq<string>>)

  datatype Interaction = Interaction(
    userId: Id, representativeId: Id, issueId: Option<Id>, kind: InteractionType, date: int, notes: string,
    outcome: Outcome, followUpNeeded: bool, messageFeedback: Option<MessageFeedback>)

  datatype Issue = Issue(
    userId: Id, title: string, description: string, status: IssueStatus, priority: Priority, tags: seq<string>,
    targetDate: Option<int>, notes: string, keyPoints: Option<seq<string>>, successCriteria: Option<seq<string>>)

  datatype Task = Task(
    userId: Id, title: string, description: string, dueDate: int, issueId: Option<Id>, status: TaskStatus,
    priority: Priority, reminderSent: bool)

  datatype Followup = Followup(
    userId: Id, interactionId: Id, dueDate: int, kind: FollowupType, status: FollowupStatus, notes: Option<string>,
    reminderSent: bool)

  function OptionalNum(n: Option<int>): Value {
    match n
    case Some(v) => Num(v)
    case None => Undefined
  }

  function OptionalRef(id: Option<Id>): Value {
    match id
    case Some(v) => Ref(v)
    case None => Undefined
  }

  // The value of each indexed field, by the field's name in the schema.

  function UserField(u: User, name: string): Value {
    if name == "tokenIdentifier" then (match u.tokenIdentifier case Some(t) => Str(t) case None => Undefined)
    else Undefined
  }

  function RepresentativeField(r: Representative, name: string): Value {
    if name == "userId" then Ref(r.userId) else Undefined
  }

  function InteractionField(r: Interaction, name: string): Value {
    if name == "userId" then Ref(r.userId)
    else if name == "representativeId" then Ref(r.representativeId)
    else if name == "date" then Num(r.date)
    else if name == "issueId" then OptionalRef(r.issueId)
    else Undefined
  }

  function IssueField(r: Issue, name: string): Value {
    if name == "userId" then Ref(r.userId)
    else if name == "status" then Str(IssueStatusLiteral(r.status))
    else if name == "priority" then Str(PriorityLiteral(r.priority))
    else if name == "target_date" then OptionalNum(r.targetDate)
    else Undefined
  }

  function TaskField(r: Task, name: string): Value {
    if name == "userId" then Ref(r.userId)
    else if name == "status" then Str(TaskStatusLiteral(r.status))
    else if name == "priority" then Str(PriorityLiteral(r.priority))
    else if name == "due_date" then Num(r.dueDate)
    else if name == "issueId" then OptionalRef(r.issueId)
    else Undefined
  }

  function FollowupField(r: Followup, name: string): Value {
    if name == "userId" then Ref(r.userId)
    else if name == "due_date" then Num(r.dueDate)
    else if name == "status" then Str(FollowupStatusLiteral(r.status))
    else if name == "interactionId" then Ref(r.interactionId)
    else Undefined
  }

  // ---------------------------------------------------------------------
  // Declared indexes

  datatype TableName = UsersTable | RepresentativesTable | InteractionsTable | IssuesTable | TasksTable | FollowupsTable

  /** A secondary index: its name and its ordered key fields. */
  datatype IndexDecl = IndexDecl(name: string, fields: seq<string>)

  /** The index is bounded by the owner when its leading key is `userId`. */
  predicate OwnerPrefixed(ix: IndexDecl) {
    |ix.fields| > 0 && ix.fields[0] == "userId"
  }

  const UsersByToken := IndexDecl("by_token", ["tokenIdentifier"])

  const RepresentativesByUser := IndexDecl("by_user", ["userId"])

  const InteractionsByUser := IndexDecl("by_user", ["userId"])
  const InteractionsByRepresentative := IndexDecl("by_representative", ["representativeId"])
  const InteractionsByUserDate := IndexDecl("by_user_date", ["userId", "date"])
  const InteractionsByIssue := IndexDecl("by_issue", ["issueId"])

  const IssuesByUser := IndexDecl("by_user", ["userId"])
  const IssuesByUserStatus := IndexDecl("by_user_status", ["userId", "status"])
  const IssuesByUserPriority := IndexDecl("by_user_priority", ["userId", "priority"])
  const IssuesByUserStatusPriority := IndexDecl("by_user_status_priority", ["userId", "status", "priority"])
  const IssuesByUserTargetDate := IndexDecl("by_user_target_date", ["userId", "target_date"])

  const TasksByUser := IndexDecl("by_user", ["userId"])
  const TasksByUserStatus := IndexDecl("by_user_status", ["userId", "status"])
  const TasksByUserPriority := IndexDecl("by_user_priority", ["userId", "priority"])
  const TasksByUserDueDate := IndexDecl("by_user_due_date", ["userId", "due_date"])
  const TasksByIssue := IndexDecl("by_issue", ["issueId"])

  const FollowupsByUser := IndexDecl("by_user", ["userId"])
  const FollowupsByUserDueDate := IndexDecl("by_user_due_date", ["userId", "due_date"])
  const FollowupsByUserStatus := IndexDecl("by_user_status", ["userId", "status"])
  const FollowupsByInteraction := IndexDecl("by_interaction", ["interactionId"])

  /**
    The indexes each table declares. Every issue index leads with the owner;
    among tasks and follow-ups only `by_issue` and `by_interaction` do not.
   */
  function IndexesOf(table: TableName): (ixs: seq<IndexDecl>)
    ensures table == UsersTable ==> ixs == [UsersByToken] && !OwnerPrefixed(UsersByToken)
    ensures table == IssuesTable ==> forall ix | ix in ixs :: OwnerPrefixed(ix)
    ensures table == RepresentativesTable ==> forall ix | ix in ixs :: OwnerPrefixed(ix)
    ensures table == TasksTable ==>
      TasksByIssue in ixs && TasksByIssue.fields == ["issueId"] &&
      forall ix | ix in ixs :: OwnerPrefixed(ix) <==> ix != TasksByIssue
    ensures table == FollowupsTable ==>
      FollowupsByInteraction in ixs && FollowupsByInteraction.fields == ["interactionId"] &&
      forall ix | ix in ixs :: OwnerPrefixed(ix) <==> ix != FollowupsByInteraction
  {
    match table
    case UsersTable => [UsersByToken]
    case RepresentativesTable => [RepresentativesByUser]
    case InteractionsTable => [InteractionsByUser, InteractionsByRepresentative, InteractionsByUserDate, InteractionsByIssue]
    case IssuesTable =>
      [IssuesByUser, IssuesByUserStatus, IssuesByUserPriority, IssuesByUserStatusPriority, IssuesByUserTargetDate]
    case TasksTable => [TasksByUser, TasksByUserStatus, TasksByUserPriority, TasksByUserDueDate, TasksByIssue]
    case FollowupsTable => [FollowupsByUser, FollowupsByUserDueDate, FollowupsByUserStatus, FollowupsByInteraction]
  }

  // ---------------------------------------------------------------------
  // The database

  datatype Db = Db(
    users: Table<User>,
    representatives: Table<Representative>,
    interactions: Table<Interaction>,
    issues: Table<Issue>,
    tasks: Table<Task>,
    followups: Table<Followup>)
}
