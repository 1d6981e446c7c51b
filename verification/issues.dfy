/**
  The issue handlers: list the caller's issues through one of four owner
  indexes, read one issue, create, patch and archive.
 */
module Issues {
  import opened Results
  import opened Store
  import opened Schema
  import opened Index
  import opened Access

  // ---------------------------------------------------------------------
  // Listing

  /** The optional filters of `listMyIssues`. */
  datatype IssueFilters = IssueFilters(status: Option<IssueStatus>, priority: Option<Priority>)

  /** The issue satisfies every supplied filter. */
  predicate IssueMatches(f: IssueFilters, r: Issue) {
    && (f.status.Some? ==> r.status == f.status.value)
    && (f.priority.Some? ==> r.priority == f.priority.value)
  }

  /**
    The index path: status and priority use `by_user_status_priority`, status
    alone `by_user_status`, priority alone `by_user_priority`, and no filter
    `by_user`; each binds the caller first and then the supplied filters.
   */
  function IssueRange(caller: Id, f: IssueFilters): (range: Range)
    ensures range.index in IndexesOf(IssuesTable)
    ensures range.index.fields ==
      ["userId"] + (if f.status.Some? then ["status"] else []) + (if f.priority.Some? then ["priority"] else [])
    ensures |range.eq| == |range.index.fields| && range.eq[0] == Ref(caller)
    ensures range.lower.None? && range.upper.None?
  {
    match (f.status, f.priority)
    case (Some(s), Some(p)) =>
      Range(IssuesByUserStatusPriority, [Ref(caller), Str(IssueStatusLiteral(s)), Str(PriorityLiteral(p))], None, None)
    case (Some(s), None) =>
      Range(IssuesByUserStatus, [Ref(caller), Str(IssueStatusLiteral(s))], None, None)
    case (None, Some(p)) =>
      Range(IssuesByUserPriority, [Ref(caller), Str(PriorityLiteral(p))], None, None)
    case (None, None) =>
      Range(IssuesByUser, [Ref(caller)], None, None)
  }

  /** `listMyIssues`: resolve the caller, then read the chosen index range in index order. */
  function ListMyIssues(db: Db, identity: Option<Identity>, f: IssueFilters): (r: Result<seq<Doc<Issue>>, Error>)
    ensures r.Err? <==> ResolveCaller(db.users, identity).Err?
    ensures r.Err? ==> r.error == ResolveCaller(db.users, identity).error
  {
    var caller :- ResolveCaller(db.users, identity);
    Ok(IndexScan(db.issues, IssueRange(caller, f), IssueField))
  }

  /** An issue lies in the chosen range exactly when it is the caller's and matches the filters. */
  lemma IssueRangeMembers(caller: Id, f: IssueFilters, r: Issue)
    ensures InRange(IssueRange(caller, f), IssueField, r) <==> r.userId == caller && IssueMatches(f, r)
  {
    var range := IssueRange(caller, f);
    match (f.status, f.priority)
    case (Some(s), Some(p)) =>
      InRange3(range, IssueField, r);
      IssueLiteralsInjective(r.status, s, r.priority, p);
    case (Some(s), None) =>
      InRange2(range, IssueField, r);
      IssueLiteralsInjective(r.status, s, r.priority, r.priority);
    case (None, Some(p)) =>
      InRange2(range, IssueField, r);
      IssueLiteralsInjective(r.status, r.status, r.priority, p);
    case (None, None) =>
      InRange1(range, IssueField, r);
  }

  /**
    Whatever filters are supplied, the list is exactly the caller's issues
    matching all of them, in creation order.
   */
  lemma ListMyIssuesExact(db: Db, identity: Option<Identity>, f: IssueFilters)
    requires ResolveCaller(db.users, identity).Ok?
    ensures ListMyIssues(db, identity, f).Ok?
    ensures forall d :: d in ListMyIssues(db, identity, f).value <==>
      Stored(db.issues, d) && d.value.userId == ResolveCaller(db.users, identity).value && IssueMatches(f, d.value)
    ensures CreationOrdered(ListMyIssues(db, identity, f).value)
  {
    var caller := ResolveCaller(db.users, identity).value;
    var range := IssueRange(caller, f);
    var s := IndexScan(db.issues, range, IssueField);
    assert ListMyIssues(db, identity, f) == Ok(s);
    IndexScanExact(db.issues, range, IssueField);
    IndexScanCreationOrder(db.issues, range, IssueField);
    forall d ensures d in s <==> Stored(db.issues, d) && d.value.userId == caller && IssueMatches(f, d.value) {
      IssueRangeMembers(caller, f, d.value);
    }
  }

  // ---------------------------------------------------------------------
  // Reading one issue

  /** `getIssueDetails`: the owner-checked read of one issue. */
  function GetIssueDetails(db: Db, identity: Option<Identity>, id: Id): (r: Result<Issue, Error>)
    ensures ReadOutcome(db.users, identity, db.issues, id, IssueField, IssuesTable, r)
  {
    GetOwned(db.users, identity, db.issues, id, IssueField, IssuesTable)
  }

  // ---------------------------------------------------------------------
  // Creating

  /** The arguments of `createIssue`. */
  datatype NewIssue = NewIssue(
    title: string, description: string, status: IssueStatus, priority: Priority, tags: seq<string>,
    targetDate: Option<int>, notes: string, keyPoints: Option<seq<string>>, successCriteria: Option<seq<string>>)

  /** `{ userId, ...args }`. */
  function IssueOf(caller: Id, a: NewIssue): Issue {
    Issue(caller, a.title, a.description, a.status, a.priority, a.tags, a.targetDate, a.notes, a.keyPoints, a.successCriteria)
  }

  /** The caller-supplied part of a stored issue. */
  function ArgsOf(r: Issue): NewIssue {
    NewIssue(r.title, r.description, r.status, r.priority, r.tags, r.targetDate, r.notes, r.keyPoints, r.successCriteria)
  }

  /**
    `createIssue`: the new issue belongs to the caller and carries exactly the
    arguments; no other table changes and no foreign id is checked.
   */
  function CreateIssue(db: Db, identity: Option<Identity>, a: NewIssue): (r: Result<(Db, Id), Error>)
    ensures r.Err? <==> ResolveCaller(db.users, identity).Err?
    ensures r.Err? ==> r.error == ResolveCaller(db.users, identity).error
    ensures r.Ok? ==>
      var (db', id) := r.value;
      && id in db'.issues.rows && InsertedOnly(db.issues, db'.issues, id, db'.issues.rows[id])
      && db'.issues.rows[id].userId == ResolveCaller(db.users, identity).value
      && ArgsOf(db'.issues.rows[id]) == a
      && db' == db.(issues := db'.issues)
  {
    var caller :- ResolveCaller(db.users, identity);
    var (issues, id) := Insert(db.issues, IssueOf(caller, a));
    Ok((db.(issues := issues), id))
  }

  /** Reading back a freshly created issue returns it as created. */
  lemma CreateThenGet(db: Db, identity: Option<Identity>, a: NewIssue)
    requires CreateIssue(db, identity, a).Ok?
    ensures var (db', id) := CreateIssue(db, identity, a).value;
      GetIssueDetails(db', identity, id) == Ok(IssueOf(ResolveCaller(db.users, identity).value, a))
  {
  }

  /**
    Adding a row newer than every stored issue appends it to exactly the
    listings of its owner whose filters it matches.
   */
  lemma InsertThenList(db: Db, db': Db, id: Id, row: Issue, reader: Option<Identity>, f: IssueFilters)
    requires db'.users == db.users && InsertedOnly(db.issues, db'.issues, id, row)
    requires forall k | k in db.issues.rows :: k < id
    requires ResolveCaller(db.users, reader).Ok?
    ensures ListMyIssues(db', reader, f).value ==
      ListMyIssues(db, reader, f).value +
      (if row.userId == ResolveCaller(db.users, reader).value && IssueMatches(f, row) then [Doc(id, row)] else [])
  {
    var me := ResolveCaller(db.users, reader).value;
    var before := ListMyIssues(db, reader, f).value;
    var after := ListMyIssues(db', reader, f).value;
    var added: seq<Doc<Issue>> := if row.userId == me && IssueMatches(f, row) then [Doc(id, row)] else [];
    ListMyIssuesExact(db, reader, f);
    ListMyIssuesExact(db', reader, f);
    forall d ensures d in after <==> d in before + added {
      if d.id == id {
        assert d !in before;
      } else {
        assert Stored(db'.issues, d) <==> Stored(db.issues, d);
      }
    }
    forall d | d in before ensures d.id < id {
      assert d.id in db.issues.rows;
    }
    CreationOrderedAppend(before, added);
    CreationOrderUnique(after, before + added);
  }

  /**
    A created issue appears at the end of its creator's lists whose filters it
    matches, and nobody else's lists change.
   */
  lemma CreateThenList(db: Db, creator: Option<Identity>, a: NewIssue, reader: Option<Identity>, f: IssueFilters)
    requires CreateIssue(db, creator, a).Ok?
    requires ResolveCaller(db.users, reader).Ok?
    ensures var (db', id) := CreateIssue(db, creator, a).value;
      var caller := ResolveCaller(db.users, creator).value;
      ListMyIssues(db', reader, f).value ==
        ListMyIssues(db, reader, f).value +
        (if reader == creator && IssueMatches(f, IssueOf(caller, a)) then [Doc(id, IssueOf(caller, a))] else [])
  {
    var (db', id) := CreateIssue(db, creator, a).value;
    var caller := ResolveCaller(db.users, creator).value;
    assert db'.users == db.users && InsertedOnly(db.issues, db'.issues, id, IssueOf(caller, a));
    assert forall k | k in db.issues.rows :: k < id;
    ResolveCallerInjective(db.users, reader, creator);
    InsertThenList(db, db', id, IssueOf(caller, a), reader, f);
  }

  // ---------------------------------------------------------------------
  // Updating

  /** The optional fields of `updateIssue`; the `id` argument is not part of the patch. */
  datatype IssuePatch = IssuePatch(
    title: Option<string>, description: Option<string>, status: Option<IssueStatus>, priority: Option<Priority>,
    tags: Option<seq<string>>, targetDate: Option<int>, notes: Option<string>, keyPoints: Option<seq<string>>,
    successCriteria: Option<seq<string>>)

  const NoChanges := IssuePatch(None, None, None, None, None, None, None, None, None)

  /** A patch that sets only the status. */
  function StatusPatch(s: IssueStatus): IssuePatch {
    NoChanges.(status := Some(s))
  }

  /**
    `patch(id, updates)`: every supplied field takes the supplied value, every
    other field, and the owner, keep theirs.
   */
  function PatchIssue(r: Issue, p: IssuePatch): (r': Issue)
    ensures r'.userId == r.userId
    ensures p == NoChanges ==> r' == r
  {
    Issue(
      r.userId,
      Override(r.title, p.title),
      Override(r.description, p.description),
      Override(r.status, p.status),
      Override(r.priority, p.priority),
      Override(r.tags, p.tags),
      OverrideOptional(r.targetDate, p.targetDate),
      Override(r.notes, p.notes),
      OverrideOptional(r.keyPoints, p.keyPoints),
      OverrideOptional(r.successCriteria, p.successCriteria))
  }

  /** The later patch wins field by field. */
  function Then(p: IssuePatch, q: IssuePatch): IssuePatch {
    IssuePatch(
      OverrideOptional(p.title, q.title),
      OverrideOptional(p.description, q.description),
      OverrideOptional(p.status, q.status),
      OverrideOptional(p.priority, q.priority),
      OverrideOptional(p.tags, q.tags),
      OverrideOptional(p.targetDate, q.targetDate),
      OverrideOptional(p.notes, q.notes),
      OverrideOptional(p.keyPoints, q.keyPoints),
      OverrideOptional(p.successCriteria, q.successCriteria))
  }

  /** Two patches in a row are one merged patch; in particular a patch applied twice is applied once. */
  lemma PatchIssueCompose(r: Issue, p: IssuePatch, q: IssuePatch)
    ensures PatchIssue(PatchIssue(r, p), q) == PatchIssue(r, Then(p, q))
    ensures PatchIssue(PatchIssue(r, p), p) == PatchIssue(r, p)
  {
    assert Then(p, p) == p;
  }

  /** A status-only patch leaves every other field as it was. */
  lemma StatusPatchKeepsFields(r: Issue, s: IssueStatus)
    ensures PatchIssue(r, StatusPatch(s)) == r.(status := s)
  {
  }

  /**
    The shared write path of `updateIssue` and `archiveIssue`: resolve the
    caller, require an existing issue the caller owns, then patch it.
   */
  function PatchOwnedIssue(db: Db, identity: Option<Identity>, id: Id, p: IssuePatch): (r: Result<Db, Error>)
    ensures r.Ok? <==> (ResolveCaller(db.users, identity).Ok? && id in db.issues.rows &&
      db.issues.rows[id].userId == ResolveCaller(db.users, identity).value)
    ensures r.Err? && ResolveCaller(db.users, identity).Err? ==> r.error == ResolveCaller(db.users, identity).error
    ensures r.Err? && ResolveCaller(db.users, identity).Ok? ==>
      r.error == (if id in db.issues.rows then Unauthorized(IssuesTable) else NotFound(IssuesTable))
    ensures r.Ok? ==>
      && r.value == db.(issues := r.value.issues)
      && ReplacedOnly(db.issues, r.value.issues, id, PatchIssue(db.issues.rows[id], p))
  {
    var caller :- ResolveCaller(db.users, identity);
    var issue :- Authorize(db.issues, id, caller, IssueField, IssuesTable);
    Ok(db.(issues := Put(db.issues, id, PatchIssue(issue, p))))
  }

  /** `updateIssue`: patch the supplied fields of one of the caller's issues. */
  function UpdateIssue(db: Db, identity: Option<Identity>, id: Id, p: IssuePatch): (r: Result<Db, Error>)
    ensures r.Ok? <==> (ResolveCaller(db.users, identity).Ok? && id in db.issues.rows &&
      db.issues.rows[id].userId == ResolveCaller(db.users, identity).value)
    ensures r.Err? && ResolveCaller(db.users, identity).Err? ==> r.error == ResolveCaller(db.users, identity).error
    ensures r.Err? && ResolveCaller(db.users, identity).Ok? ==>
      r.error == (if id in db.issues.rows then Unauthorized(IssuesTable) else NotFound(IssuesTable))
    ensures r.Ok? ==>
      && r.value == db.(issues := r.value.issues)
      && ReplacedOnly(db.issues, r.value.issues, id, PatchIssue(db.issues.rows[id], p))
  {
    PatchOwnedIssue(db, identity, id, p)
  }

  /** `archiveIssue`: set one of the caller's issues to archived and change nothing else. */
  function ArchiveIssue(db: Db, identity: Option<Identity>, id: Id): (r: Result<Db, Error>)
    ensures r == UpdateIssue(db, identity, id, StatusPatch(Archived))
    ensures r.Ok? ==> r.value.issues.rows[id] == db.issues.rows[id].(status := Archived)
  {
    PatchOwnedIssue(db, identity, id, StatusPatch(Archived))
  }

  /** Someone other than the owner can neither read nor write an issue, and a failed write changes nothing. */
  lemma ForeignIssueRejected(db: Db, identity: Option<Identity>, id: Id, p: IssuePatch)
    requires ResolveCaller(db.users, identity).Ok?
    requires id in db.issues.rows && db.issues.rows[id].userId != ResolveCaller(db.users, identity).value
    ensures GetIssueDetails(db, identity, id) == Err(Unauthorized(IssuesTable))
    ensures UpdateIssue(db, identity, id, p) == Err(Unauthorized(IssuesTable))
    ensures ArchiveIssue(db, identity, id) == Err(Unauthorized(IssuesTable))
  {
  }
}
