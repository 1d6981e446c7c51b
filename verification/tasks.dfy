/**
  The task handlers. Listing picks one index from the supplied filters
  (status first, then priority, then issue, else due date) and applies every
  supplied filter again as a residual predicate. The issue-only path reads
  `by_issue`, which is not bounded by the owner.
 */
module Tasks {
  import opened Results
  import opened Store
  import opened Schema
  import opened Index
  import opened Access

  // ---------------------------------------------------------------------
  // Listing

  /** The optional filters of `listMyTasks`. */
  datatype TaskFilters = TaskFilters(status: Option<TaskStatus>, priority: Option<Priority>, issueId: Option<Id>)

  const NoTaskFilters := TaskFilters(None, None, None)

  /** The task satisfies every supplied filter. */
  predicate TaskMatches(f: TaskFilters, r: Task) {
    && (f.status.Some? ==> r.status == f.status.value)
    && (f.priority.Some? ==> r.priority == f.priority.value)
    && (f.issueId.Some? ==> r.issueId == f.issueId)
  }

  /** Only an issue filter is supplied: the path that reads `by_issue`. */
  predicate IssueOnly(f: TaskFilters) {
    f.status.None? && f.priority.None? && f.issueId.Some?
  }

  /**
    The index path: status → `by_user_status`, else priority →
    `by_user_priority`, else issue → `by_issue`, else `by_user_due_date`.
    Every path but the issue-only one leads with the caller.
   */
  function TaskRange(caller: Id, f: TaskFilters): (range: Range)
    ensures range.index in IndexesOf(TasksTable)
    ensures f.status.Some? ==> range.index == TasksByUserStatus
    ensures f.status.None? && f.priority.Some? ==> range.index == TasksByUserPriority
    ensures IssueOnly(f) ==> range.index == TasksByIssue && range.eq == [Ref(f.issueId.value)]
    ensures f == NoTaskFilters ==> range.index == TasksByUserDueDate && range.eq == [Ref(caller)]
    ensures OwnerPrefixed(range.index) <==> !IssueOnly(f)
    ensures |range.eq| >= 1 && (OwnerPrefixed(range.index) ==> range.eq[0] == Ref(caller))
    ensures f != NoTaskFilters ==> |range.eq| == |range.index.fields|
    ensures range.lower.None? && range.upper.None?
  {
    if f.status.Some? then
      Range(TasksByUserStatus, [Ref(caller), Str(TaskStatusLiteral(f.status.value))], None, None)
    else if f.priority.Some? then
      Range(TasksByUserPriority, [Ref(caller), Str(PriorityLiteral(f.priority.value))], None, None)
    else if f.issueId.Some? then
      Range(TasksByIssue, [Ref(f.issueId.value)], None, None)
    else
      Range(TasksByUserDueDate, [Ref(caller)], None, None)
  }

  /** The residual predicate: every supplied filter. */
  function TaskFilter(f: TaskFilters): Task -> bool {
    (r: Task) => TaskMatches(f, r)
  }

  /** `listMyTasks`: resolve the caller, read the chosen range in ascending index order, filter. */
  function ListMyTasks(db: Db, identity: Option<Identity>, f: TaskFilters): (r: Result<seq<Doc<Task>>, Error>)
    ensures r.Err? <==> ResolveCaller(db.users, identity).Err?
    ensures r.Err? ==> r.error == ResolveCaller(db.users, identity).error
    ensures r.Ok? ==> forall i | 0 <= i < |r.value| :: TaskMatches(f, r.value[i].value)
  {
    var caller :- ResolveCaller(db.users, identity);
    Ok(Filter(IndexScan(db.tasks, TaskRange(caller, f), TaskField), TaskFilter(f)))
  }

  /** The due date, the key of `by_user_due_date` after the owner. */
  function DueDate(r: Task): int {
    r.dueDate
  }

  /**
    A task matching the filters lies in the chosen range exactly when it is
    the caller's, except on the issue-only path, where the owner is not read.
   */
  lemma TaskRangeMembers(caller: Id, f: TaskFilters, r: Task)
    ensures InRange(TaskRange(caller, f), TaskField, r) && TaskMatches(f, r) <==>
      TaskMatches(f, r) && (!IssueOnly(f) ==> r.userId == caller)
  {
    var range := TaskRange(caller, f);
    if f.status.Some? {
      InRange2(range, TaskField, r);
      TaskLiteralsInjective(r.status, f.status.value, r.priority, r.priority);
    } else if f.priority.Some? {
      InRange2(range, TaskField, r);
      TaskLiteralsInjective(r.status, r.status, r.priority, f.priority.value);
    } else {
      InRange1(range, TaskField, r);
    }
  }

  /**
    The list is the stored tasks matching every filter that are the caller's,
    except on the issue-only path, where ownership is not required.
   */
  lemma ListMyTasksMembers(db: Db, identity: Option<Identity>, f: TaskFilters)
    requires ResolveCaller(db.users, identity).Ok?
    ensures ListMyTasks(db, identity, f).Ok?
    ensures forall d :: d in ListMyTasks(db, identity, f).value <==>
      && Stored(db.tasks, d)
      && TaskMatches(f, d.value)
      && (!IssueOnly(f) ==> d.value.userId == ResolveCaller(db.users, identity).value)
  {
    var caller := ResolveCaller(db.users, identity).value;
    var range := TaskRange(caller, f);
    var scan := IndexScan(db.tasks, range, TaskField);
    IndexScanExact(db.tasks, range, TaskField);
    FilterMembers(scan, TaskFilter(f));
    forall d: Doc<Task> ensures InRange(range, TaskField, d.value) && TaskMatches(f, d.value) <==>
      TaskMatches(f, d.value) && (!IssueOnly(f) ==> d.value.userId == caller)
    {
      TaskRangeMembers(caller, f, d.value);
    }
  }

  /** Off the issue-only path the list is exactly the caller's tasks matching every filter. */
  lemma ListMyTasksExact(db: Db, identity: Option<Identity>, f: TaskFilters)
    requires ResolveCaller(db.users, identity).Ok? && !IssueOnly(f)
    ensures forall d :: d in ListMyTasks(db, identity, f).value <==>
      Stored(db.tasks, d) && d.value.userId == ResolveCaller(db.users, identity).value && TaskMatches(f, d.value)
  {
    ListMyTasksMembers(db, identity, f);
  }

  /** On the issue-only path every stored task of that issue is listed, whoever owns it. */
  lemma ListMyTasksIssueOnly(db: Db, identity: Option<Identity>, f: TaskFilters)
    requires ResolveCaller(db.users, identity).Ok? && IssueOnly(f)
    ensures forall id | id in db.tasks.rows && db.tasks.rows[id].issueId == f.issueId ::
      Doc(id, db.tasks.rows[id]) in ListMyTasks(db, identity, f).value
  {
    ListMyTasksMembers(db, identity, f);
    forall id | id in db.tasks.rows && db.tasks.rows[id].issueId == f.issueId
      ensures Doc(id, db.tasks.rows[id]) in ListMyTasks(db, identity, f).value
    {
      assert Stored(db.tasks, Doc(id, db.tasks.rows[id]));
    }
  }

  /**
    Unfiltered, the list is ascending by due date (ties in creation order);
    with any filter every key is bound and the list is in creation order.
   */
  lemma ListMyTasksOrder(db: Db, identity: Option<Identity>, f: TaskFilters)
    requires ResolveCaller(db.users, identity).Ok?
    ensures ListMyTasks(db, identity, f).Ok?
    ensures f == NoTaskFilters ==> Ascending(ListMyTasks(db, identity, f).value, DueDate)
    ensures f != NoTaskFilters ==> CreationOrdered(ListMyTasks(db, identity, f).value)
  {
    var caller := ResolveCaller(db.users, identity).value;
    var range := TaskRange(caller, f);
    var scan := IndexScan(db.tasks, range, TaskField);
    var r := Filter(scan, TaskFilter(f));
    if f == NoTaskFilters {
      IndexScanExact(db.tasks, range, TaskField);
      FilterKeepsOrder(scan, TaskFilter(f), Key(range, TaskField));
      forall i | 0 <= i < |r| ensures Key(range, TaskField)(r[i].value) == DueDate(r[i].value) {
        assert range.index.fields[1] == "due_date";
      }
      AscendingSameKey(r, Key(range, TaskField), DueDate);
    } else {
      IndexScanCreationOrder(db.tasks, range, TaskField);
      FilterKeepsCreationOrder(scan, TaskFilter(f));
    }
  }

  /** The residual filter is idempotent: filtering the list again changes nothing. */
  lemma ListMyTasksRefilter(db: Db, identity: Option<Identity>, f: TaskFilters)
    requires ResolveCaller(db.users, identity).Ok?
    ensures Filter(ListMyTasks(db, identity, f).value, TaskFilter(f)) == ListMyTasks(db, identity, f).value
  {
    FilterIdle(ListMyTasks(db, identity, f).value, TaskFilter(f));
  }

  /** A task of bob's attached to issue 0. */
  function BobsTask(): Task {
    Task(1, "call", "", 0, Some(0), Todo, High, false)
  }

  function LeakyDb(): Db {
    Db(AliceAndBob(), RawTable(map[], 0), RawTable(map[], 0), RawTable(map[], 0),
       RawTable(map[0 := BobsTask()], 1), RawTable(map[], 0))
  }

  /** Alice, filtering by issue 0 alone, is shown bob's task. */
  lemma ForeignTaskListed()
    ensures ResolveCaller(LeakyDb().users, Some(Identity("alice"))) == Ok(0)
    ensures Doc(0, BobsTask()) in ListMyTasks(LeakyDb(), Some(Identity("alice")), TaskFilters(None, None, Some(0))).value
    ensures BobsTask().userId != 0
  {
    var db := LeakyDb();
    AliceResolves();
    ListMyTasksIssueOnly(db, Some(Identity("alice")), TaskFilters(None, None, Some(0)));
    assert 0 in db.tasks.rows && db.tasks.rows[0] == BobsTask();
  }

  /** The owner-bound listing: the issue-only path also requires the caller to own the task. */
  function ListMyTasksOwned(db: Db, identity: Option<Identity>, f: TaskFilters): (r: Result<seq<Doc<Task>>, Error>)
    ensures r.Err? <==> ResolveCaller(db.users, identity).Err?
    ensures r.Err? ==> r.error == ResolveCaller(db.users, identity).error
  {
    var caller :- ResolveCaller(db.users, identity);
    Ok(Filter(IndexScan(db.tasks, TaskRange(caller, f), TaskField), OwnedTaskFilter(caller, f)))
  }

  function OwnedTaskFilter(caller: Id, f: TaskFilters): Task -> bool {
    (r: Task) => TaskMatches(f, r) && r.userId == caller
  }

  /** The owner-bound listing is exactly the caller's matching tasks on every path, and agrees off the issue-only path. */
  lemma ListMyTasksOwnedExact(db: Db, identity: Option<Identity>, f: TaskFilters)
    requires ResolveCaller(db.users, identity).Ok?
    ensures ListMyTasksOwned(db, identity, f).Ok?
    ensures forall d :: d in ListMyTasksOwned(db, identity, f).value <==>
      Stored(db.tasks, d) && d.value.userId == ResolveCaller(db.users, identity).value && TaskMatches(f, d.value)
    ensures !IssueOnly(f) ==> ListMyTasksOwned(db, identity, f) == ListMyTasks(db, identity, f)
  {
    var caller := ResolveCaller(db.users, identity).value;
    var range := TaskRange(caller, f);
    var scan := IndexScan(db.tasks, range, TaskField);
    IndexScanExact(db.tasks, range, TaskField);
    FilterMembers(scan, OwnedTaskFilter(caller, f));
    forall d: Doc<Task> ensures InRange(range, TaskField, d.value) && TaskMatches(f, d.value) <==>
      TaskMatches(f, d.value) && (!IssueOnly(f) ==> d.value.userId == caller)
    {
      TaskRangeMembers(caller, f, d.value);
    }
    if !IssueOnly(f) {
      ListMyTasksMembers(db, identity, f);
      var owned := ListMyTasksOwned(db, identity, f).value;
      var plain := ListMyTasks(db, identity, f).value;
      ListMyTasksOrder(db, identity, f);
      IndexScanExact(db.tasks, range, TaskField);
      FilterKeepsOrder(scan, OwnedTaskFilter(caller, f), Key(range, TaskField));
      FilterKeepsOrder(scan, TaskFilter(f), Key(range, TaskField));
      AscendingUnique(owned, plain, Key(range, TaskField));
    }
  }

  // ---------------------------------------------------------------------
  // Reading one task

  /** `getTaskDetails`: the owner-checked read of one task. */
  function GetTaskDetails(db: Db, identity: Option<Identity>, id: Id): (r: Result<Task, Error>)
    ensures ReadOutcome(db.users, identity, db.tasks, id, TaskField, TasksTable, r)
  {
    GetOwned(db.users, identity, db.tasks, id, TaskField, TasksTable)
  }

  // ---------------------------------------------------------------------
  // Creating

  /** The arguments of `createTask`. */
  datatype NewTask = NewTask(
    title: string, description: string, dueDate: int, issueId: Option<Id>, status: TaskStatus, priority: Priority)

  /** `{ userId, reminder_sent: false, ...args }`. */
  function TaskOf(caller: Id, a: NewTask): Task {
    Task(caller, a.title, a.description, a.dueDate, a.issueId, a.status, a.priority, false)
  }

  function NewTaskOf(r: Task): NewTask {
    NewTask(r.title, r.description, r.dueDate, r.issueId, r.status, r.priority)
  }

  /**
    `createTask`: a named issue must be the caller's (`Invalid issue ID`
    otherwise, with nothing inserted); the new task is the caller's, carries
    the arguments, and has not had its reminder sent.
   */
  function CreateTask(db: Db, identity: Option<Identity>, a: NewTask): (r: Result<(Db, Id), Error>)
    ensures r.Ok? <==> (ResolveCaller(db.users, identity).Ok? &&
      IssueRefValid(db, ResolveCaller(db.users, identity).value, a.issueId))
    ensures r.Err? ==> (r.error ==
      if ResolveCaller(db.users, identity).Err? then ResolveCaller(db.users, identity).error else InvalidId(IssuesTable))
    ensures r.Ok? ==>
      var (db', id) := r.value;
      && id in db'.tasks.rows && InsertedOnly(db.tasks, db'.tasks, id, db'.tasks.rows[id])
      && db'.tasks.rows[id].userId == ResolveCaller(db.users, identity).value
      && !db'.tasks.rows[id].reminderSent
      && NewTaskOf(db'.tasks.rows[id]) == a
      && db' == db.(tasks := db'.tasks)
  {
    var caller :- ResolveCaller(db.users, identity);
    var checked :- CheckOptionalReference(db.issues, a.issueId, caller, IssueField, IssuesTable);
    var (tasks, id) := Insert(db.tasks, TaskOf(caller, a));
    Ok((db.(tasks := tasks), id))
  }

  /** A created task is readable by its creator as created. */
  lemma CreateTaskThenGet(db: Db, identity: Option<Identity>, a: NewTask)
    requires CreateTask(db, identity, a).Ok?
    ensures var (db', id) := CreateTask(db, identity, a).value;
      GetTaskDetails(db', identity, id) == Ok(TaskOf(ResolveCaller(db.users, identity).value, a))
  {
    var (db', id) := CreateTask(db, identity, a).value;
    assert db'.users == db.users;
  }

  // ---------------------------------------------------------------------
  // Updating

  /** The optional fields of `updateTask`; `reminder_sent` is among them, `id` is not. */
  datatype TaskPatch = TaskPatch(
    title: Option<string>, description: Option<string>, dueDate: Option<int>, issueId: Option<Id>,
    status: Option<TaskStatus>, priority: Option<Priority>, reminderSent: Option<bool>)

  const NoTaskChanges := TaskPatch(None, None, None, None, None, None, None)

  function TaskStatusPatch(s: TaskStatus): TaskPatch {
    NoTaskChanges.(status := Some(s))
  }

  /** `patch(id, updates)` on a task: supplied fields replace, the rest and the owner stay. */
  function PatchTask(r: Task, p: TaskPatch): (r': Task)
    ensures r'.userId == r.userId
    ensures p == NoTaskChanges ==> r' == r
  {
    Task(
      r.userId,
      Override(r.title, p.title),
      Override(r.description, p.description),
      Override(r.dueDate, p.dueDate),
      OverrideOptional(r.issueId, p.issueId),
      Override(r.status, p.status),
      Override(r.priority, p.priority),
      Override(r.reminderSent, p.reminderSent))
  }

  /** Applying the same task patch twice is applying it once. */
  lemma PatchTaskIdempotent(r: Task, p: TaskPatch)
    ensures PatchTask(PatchTask(r, p), p) == PatchTask(r, p)
  {
  }

  /**
    `updateTask`: the owner check comes before the issue check, and any
    failure writes nothing; otherwise only that task changes, by the patch.
   */
  function UpdateTask(db: Db, identity: Option<Identity>, id: Id, p: TaskPatch): (r: Result<Db, Error>)
    ensures r.Ok? <==> (ResolveCaller(db.users, identity).Ok? && id in db.tasks.rows &&
      db.tasks.rows[id].userId == ResolveCaller(db.users, identity).value &&
      IssueRefValid(db, ResolveCaller(db.users, identity).value, p.issueId))
    ensures r.Err? ==> (r.error ==
      if ResolveCaller(db.users, identity).Err? then ResolveCaller(db.users, identity).error
      else if id !in db.tasks.rows then NotFound(TasksTable)
      else if db.tasks.rows[id].userId != ResolveCaller(db.users, identity).value then Unauthorized(TasksTable)
      else InvalidId(IssuesTable))
    ensures r.Ok? ==>
      && r.value == db.(tasks := r.value.tasks)
      && ReplacedOnly(db.tasks, r.value.tasks, id, PatchTask(db.tasks.rows[id], p))
  {
    var caller :- ResolveCaller(db.users, identity);
    var task :- Authorize(db.tasks, id, caller, TaskField, TasksTable);
    var checked :- CheckOptionalReference(db.issues, p.issueId, caller, IssueField, IssuesTable);
    Ok(db.(tasks := Put(db.tasks, id, PatchTask(task, p))))
  }

  /** After an update its author reads the patched task back. */
  lemma UpdateTaskThenGet(db: Db, identity: Option<Identity>, id: Id, p: TaskPatch)
    requires UpdateTask(db, identity, id, p).Ok?
    ensures GetTaskDetails(UpdateTask(db, identity, id, p).value, identity, id) == Ok(PatchTask(db.tasks.rows[id], p))
  {
    assert UpdateTask(db, identity, id, p).value.users == db.users;
  }

  /** `completeTask`: mark one of the caller's tasks done; nothing else changes. */
  function CompleteTask(db: Db, identity: Option<Identity>, id: Id): (r: Result<Db, Error>)
    ensures r == UpdateTask(db, identity, id, TaskStatusPatch(Done))
    ensures r.Ok? ==> r.value.tasks.rows[id] == db.tasks.rows[id].(status := Done)
  {
    var caller :- ResolveCaller(db.users, identity);
    var task :- Authorize(db.tasks, id, caller, TaskField, TasksTable);
    Ok(db.(tasks := Put(db.tasks, id, task.(status := Done))))
  }
}
