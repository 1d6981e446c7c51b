/**
  The follow-up handlers. Listing reads `by_user_status` when a status is
  given, else `by_interaction` when an interaction is given, else
  `by_user_due_date`, and applies every supplied filter as a residual
  predicate. The interaction-only path is not bounded by the owner.
 */
module Followups {
  import opened Results
  import opened Store
  import opened Schema
  import opened Index
  import opened Access

  // ---------------------------------------------------------------------
  // Listing

  /** The optional filters of `listMyFollowups`. */
  datatype FollowupFilters = FollowupFilters(status: Option<FollowupStatus>, interactionId: Option<Id>)

  const NoFollowupFilters := FollowupFilters(None, None)

  /** The follow-up satisfies every supplied filter. */
  predicate FollowupMatches(f: FollowupFilters, r: Followup) {
    && (f.status.Some? ==> r.status == f.status.value)
    && (f.interactionId.Some? ==> r.interactionId == f.interactionId.value)
  }

  /** Only an interaction filter is supplied: the path that reads `by_interaction`. */
  predicate InteractionOnly(f: FollowupFilters) {
    f.status.None? && f.interactionId.Some?
  }

  /**
    The index path: status → `by_user_status`, else interaction →
    `by_interaction`, else `by_user_due_date`.
   */
  function FollowupRange(caller: Id, f: FollowupFilters): (range: Range)
    ensures range.index in IndexesOf(FollowupsTable)
    ensures f.status.Some? ==> range.index == FollowupsByUserStatus
    ensures InteractionOnly(f) ==> range.index == FollowupsByInteraction && range.eq == [Ref(f.interactionId.value)]
    ensures f == NoFollowupFilters ==> range.index == FollowupsByUserDueDate && range.eq == [Ref(caller)]
    ensures OwnerPrefixed(range.index) <==> !InteractionOnly(f)
    ensures |range.eq| >= 1 && (OwnerPrefixed(range.index) ==> range.eq[0] == Ref(caller))
    ensures f != NoFollowupFilters ==> |range.eq| == |range.index.fields|
    ensures range.lower.None? && range.upper.None?
  {
    if f.status.Some? then
      Range(FollowupsByUserStatus, [Ref(caller), Str(FollowupStatusLiteral(f.status.value))], None, None)
    else if f.interactionId.Some? then
      Range(FollowupsByInteraction, [Ref(f.interactionId.value)], None, None)
    else
      Range(FollowupsByUserDueDate, [Ref(caller)], None, None)
  }

  /** The residual predicate: every supplied filter. */
  function FollowupFilter(f: FollowupFilters): Followup -> bool {
    (r: Followup) => FollowupMatches(f, r)
  }

  /** `listMyFollowups`: resolve the caller, read the chosen range in ascending index order, filter. */
  function ListMyFollowups(db: Db, identity: Option<Identity>, f: FollowupFilters)
    : (r: Result<seq<Doc<Followup>>, Error>)
    ensures r.Err? <==> ResolveCaller(db.users, identity).Err?
    ensures r.Err? ==> r.error == ResolveCaller(db.users, identity).error
    ensures r.Ok? ==> forall i | 0 <= i < |r.value| :: FollowupMatches(f, r.value[i].value)
  {
    var caller :- ResolveCaller(db.users, identity);
    Ok(Filter(IndexScan(db.followups, FollowupRange(caller, f), FollowupField), FollowupFilter(f)))
  }

  function FollowupDueDate(r: Followup): int {
    r.dueDate
  }

  /**
    A follow-up matching the filters lies in the chosen range exactly when it
    is the caller's, except on the interaction-only path.
   */
  lemma FollowupRangeMembers(caller: Id, f: FollowupFilters, r: Followup)
    ensures InRange(FollowupRange(caller, f), FollowupField, r) && FollowupMatches(f, r) <==>
      FollowupMatches(f, r) && (!InteractionOnly(f) ==> r.userId == caller)
  {
    var range := FollowupRange(caller, f);
    if f.status.Some? {
      InRange2(range, FollowupField, r);
      TaskAndFollowupEnumsClosed(FollowupStatusLiteral(r.status), Todo, FollowupType.Call, r.status);
      TaskAndFollowupEnumsClosed(FollowupStatusLiteral(r.status), Todo, FollowupType.Call, f.status.value);
    } else {
      InRange1(range, FollowupField, r);
    }
  }

  /**
    The list is the stored follow-ups matching every filter that are the
    caller's, except on the interaction-only path, where ownership is not required.
   */
  lemma ListMyFollowupsMembers(db: Db, identity: Option<Identity>, f: FollowupFilters)
    requires ResolveCaller(db.users, identity).Ok?
    ensures ListMyFollowups(db, identity, f).Ok?
    ensures forall d :: d in ListMyFollowups(db, identity, f).value <==>
      && Stored(db.followups, d)
      && FollowupMatches(f, d.value)
      && (!InteractionOnly(f) ==> d.value.userId == ResolveCaller(db.users, identity).value)
  {
    var caller := ResolveCaller(db.users, identity).value;
    var range := FollowupRange(caller, f);
    var scan := IndexScan(db.followups, range, FollowupField);
    IndexScanExact(db.followups, range, FollowupField);
    FilterMembers(scan, FollowupFilter(f));
    forall d: Doc<Followup> ensures InRange(range, FollowupField, d.value) && FollowupMatches(f, d.value) <==>
      FollowupMatches(f, d.value) && (!InteractionOnly(f) ==> d.value.userId == caller)
    {
      FollowupRangeMembers(caller, f, d.value);
    }
  }

  /** Off the interaction-only path the list is exactly the caller's follow-ups matching every filter. */
  lemma ListMyFollowupsExact(db: Db, identity: Option<Identity>, f: FollowupFilters)
    requires ResolveCaller(db.users, identity).Ok? && !InteractionOnly(f)
    ensures forall d :: d in ListMyFollowups(db, identity, f).value <==>
      Stored(db.followups, d) && d.value.userId == ResolveCaller(db.users, identity).value && FollowupMatches(f, d.value)
  {
    ListMyFollowupsMembers(db, identity, f);
  }

  /** On the interaction-only path every stored follow-up of that interaction is listed, whoever owns it. */
  lemma ListMyFollowupsInteractionOnly(db: Db, identity: Option<Identity>, f: FollowupFilters)
    requires ResolveCaller(db.users, identity).Ok? && InteractionOnly(f)
    ensures forall id | id in db.followups.rows && db.followups.rows[id].interactionId == f.interactionId.value ::
      Doc(id, db.followups.rows[id]) in ListMyFollowups(db, identity, f).value
  {
    ListMyFollowupsMembers(db, identity, f);
    forall id | id in db.followups.rows && db.followups.rows[id].interactionId == f.interactionId.value
      ensures Doc(id, db.followups.rows[id]) in ListMyFollowups(db, identity, f).value
    {
      assert Stored(db.followups, Doc(id, db.followups.rows[id]));
    }
  }

  /**
    Unfiltered, the list is ascending by due date (ties in creation order);
    with any filter every key is bound and the list is in creation order.
   */
  lemma ListMyFollowupsOrder(db: Db, identity: Option<Identity>, f: FollowupFilters)
    requires ResolveCaller(db.users, identity).Ok?
    ensures ListMyFollowups(db, identity, f).Ok?
    ensures f == NoFollowupFilters ==> Ascending(ListMyFollowups(db, identity, f).value, FollowupDueDate)
    ensures f != NoFollowupFilters ==> CreationOrdered(ListMyFollowups(db, identity, f).value)
  {
    var caller := ResolveCaller(db.users, identity).value;
    var range := FollowupRange(caller, f);
    var scan := IndexScan(db.followups, range, FollowupField);
    var r := Filter(scan, FollowupFilter(f));
    if f == NoFollowupFilters {
      IndexScanExact(db.followups, range, FollowupField);
      FilterKeepsOrder(scan, FollowupFilter(f), Key(range, FollowupField));
      forall i | 0 <= i < |r| ensures Key(range, FollowupField)(r[i].value) == FollowupDueDate(r[i].value) {
        assert range.index.fields[1] == "due_date";
      }
      AscendingSameKey(r, Key(range, FollowupField), FollowupDueDate);
    } else {
      IndexScanCreationOrder(db.followups, range, FollowupField);
      FilterKeepsCreationOrder(scan, FollowupFilter(f));
    }
  }

  /** A follow-up of bob's on interaction 0. */
  function BobsFollowup(): Followup {
    Followup(1, 0, 0, FollowupType.Call, Pending, None, false)
  }

  function LeakyFollowupDb(): Db {
    Db(AliceAndBob(), RawTable(map[], 0), RawTable(map[], 0), RawTable(map[], 0),
       RawTable(map[], 0), RawTable(map[0 := BobsFollowup()], 1))
  }

  /** Alice, filtering by interaction 0 alone, is shown bob's follow-up. */
  lemma ForeignFollowupListed()
    ensures ResolveCaller(LeakyFollowupDb().users, Some(Identity("alice"))) == Ok(0)
    ensures Doc(0, BobsFollowup()) in
      ListMyFollowups(LeakyFollowupDb(), Some(Identity("alice")), FollowupFilters(None, Some(0))).value
    ensures BobsFollowup().userId != 0
  {
    var db := LeakyFollowupDb();
    AliceResolves();
    ListMyFollowupsInteractionOnly(db, Some(Identity("alice")), FollowupFilters(None, Some(0)));
    assert 0 in db.followups.rows && db.followups.rows[0] == BobsFollowup();
  }

  /** The owner-bound listing: the interaction-only path also requires the caller to own the follow-up. */
  function ListMyFollowupsOwned(db: Db, identity: Option<Identity>, f: FollowupFilters)
    : (r: Result<seq<Doc<Followup>>, Error>)
    ensures r.Err? <==> ResolveCaller(db.users, identity).Err?
    ensures r.Err? ==> r.error == ResolveCaller(db.users, identity).error
  {
    var caller :- ResolveCaller(db.users, identity);
    Ok(Filter(IndexScan(db.followups, FollowupRange(caller, f), FollowupField), OwnedFollowupFilter(caller, f)))
  }

  function OwnedFollowupFilter(caller: Id, f: FollowupFilters): Followup -> bool {
    (r: Followup) => FollowupMatches(f, r) && r.userId == caller
  }

  /**
    The owner-bound listing is exactly the caller's matching follow-ups on
    every path, and agrees with `listMyFollowups` off the interaction-only path.
   */
  lemma ListMyFollowupsOwnedExact(db: Db, identity: Option<Identity>, f: FollowupFilters)
    requires ResolveCaller(db.users, identity).Ok?
    ensures ListMyFollowupsOwned(db, identity, f).Ok?
    ensures forall d :: d in ListMyFollowupsOwned(db, identity, f).value <==>
      Stored(db.followups, d) && d.value.userId == ResolveCaller(db.users, identity).value && FollowupMatches(f, d.value)
    ensures !InteractionOnly(f) ==> ListMyFollowupsOwned(db, identity, f) == ListMyFollowups(db, identity, f)
  {
    var caller := ResolveCaller(db.users, identity).value;
    var range := FollowupRange(caller, f);
    var scan := IndexScan(db.followups, range, FollowupField);
    IndexScanExact(db.followups, range, FollowupField);
    FilterMembers(scan, OwnedFollowupFilter(caller, f));
    forall d: Doc<Followup> ensures InRange(range, FollowupField, d.value) && FollowupMatches(f, d.value) <==>
      FollowupMatches(f, d.value) && (!InteractionOnly(f) ==> d.value.userId == caller)
    {
      FollowupRangeMembers(caller, f, d.value);
    }
    if !InteractionOnly(f) {
      ListMyFollowupsMembers(db, identity, f);
      var owned := ListMyFollowupsOwned(db, identity, f).value;
      var plain := ListMyFollowups(db, identity, f).value;
      FilterKeepsOrder(scan, OwnedFollowupFilter(caller, f), Key(range, FollowupField));
      FilterKeepsOrder(scan, FollowupFilter(f), Key(range, FollowupField));
      AscendingUnique(owned, plain, Key(range, FollowupField));
    }
  }

  // ---------------------------------------------------------------------
  // Reading one follow-up

  /** `getFollowupDetails`: a missing follow-up is "not found", someone else's is unauthorized. */
  function GetFollowupDetails(db: Db, identity: Option<Identity>, id: Id): (r: Result<Followup, Error>)
    ensures ReadOutcome(db.users, identity, db.followups, id, FollowupField, FollowupsTable, r)
  {
    GetOwned(db.users, identity, db.followups, id, FollowupField, FollowupsTable)
  }

  // ---------------------------------------------------------------------
  // Creating

  /** The arguments of `createFollowup`. */
  datatype NewFollowup = NewFollowup(
    interactionId: Id, dueDate: int, kind: FollowupType, status: FollowupStatus, notes: Option<string>)

  /** `{ userId, reminder_sent: false, ...args }`. */
  function FollowupOf(caller: Id, a: NewFollowup): Followup {
    Followup(caller, a.interactionId, a.dueDate, a.kind, a.status, a.notes, false)
  }

  function NewFollowupOf(r: Followup): NewFollowup {
    NewFollowup(r.interactionId, r.dueDate, r.kind, r.status, r.notes)
  }

  /**
    `createFollowup`: the interaction must be the caller's ("Invalid
    interaction ID" otherwise, with nothing inserted); the new follow-up is
    the caller's, carries the arguments, and has not had its reminder sent.
   */
  function CreateFollowup(db: Db, identity: Option<Identity>, a: NewFollowup): (r: Result<(Db, Id), Error>)
    ensures r.Ok? <==> (ResolveCaller(db.users, identity).Ok? &&
      InteractionRefValid(db, ResolveCaller(db.users, identity).value, a.interactionId))
    ensures r.Err? ==> (r.error ==
      if ResolveCaller(db.users, identity).Err? then ResolveCaller(db.users, identity).error
      else InvalidId(InteractionsTable))
    ensures r.Ok? ==>
      var (db', id) := r.value;
      && id in db'.followups.rows && InsertedOnly(db.followups, db'.followups, id, db'.followups.rows[id])
      && db'.followups.rows[id].userId == ResolveCaller(db.users, identity).value
      && !db'.followups.rows[id].reminderSent
      && NewFollowupOf(db'.followups.rows[id]) == a
      && db' == db.(followups := db'.followups)
  {
    var caller :- ResolveCaller(db.users, identity);
    var checked :- CheckReference(db.interactions, a.interactionId, caller, InteractionField, InteractionsTable);
    var (followups, id) := Insert(db.followups, FollowupOf(caller, a));
    Ok((db.(followups := followups), id))
  }

  /** A created follow-up is readable by its author as created. */
  lemma CreateFollowupThenGet(db: Db, identity: Option<Identity>, a: NewFollowup)
    requires CreateFollowup(db, identity, a).Ok?
    ensures var (db', id) := CreateFollowup(db, identity, a).value;
      && GetFollowupDetails(db', identity, id).Ok?
      && NewFollowupOf(GetFollowupDetails(db', identity, id).value) == a
  {
    var (db', id) := CreateFollowup(db, identity, a).value;
    assert db'.users == db.users;
  }

  // ---------------------------------------------------------------------
  // Updating

  /** The optional fields of `updateFollowup`: neither the interaction nor `id` is among them. */
  datatype FollowupPatch = FollowupPatch(
    dueDate: Option<int>, kind: Option<FollowupType>, status: Option<FollowupStatus>, notes: Option<string>,
    reminderSent: Option<bool>)

  const NoFollowupChanges := FollowupPatch(None, None, None, None, None)

  function FollowupStatusPatch(s: FollowupStatus): FollowupPatch {
    NoFollowupChanges.(status := Some(s))
  }

  /** `patch(id, updates)` on a follow-up: the owner and the interaction always stay. */
  function PatchFollowup(r: Followup, p: FollowupPatch): (r': Followup)
    ensures r'.userId == r.userId && r'.interactionId == r.interactionId
    ensures p == NoFollowupChanges ==> r' == r
  {
    Followup(
      r.userId,
      r.interactionId,
      Override(r.dueDate, p.dueDate),
      Override(r.kind, p.kind),
      Override(r.status, p.status),
      OverrideOptional(r.notes, p.notes),
      Override(r.reminderSent, p.reminderSent))
  }

  /** Applying the same follow-up patch twice is applying it once. */
  lemma PatchFollowupIdempotent(r: Followup, p: FollowupPatch)
    ensures PatchFollowup(PatchFollowup(r, p), p) == PatchFollowup(r, p)
  {
  }

  /**
    `updateFollowup`: after the owner check, patch the supplied fields; no
    foreign id is checked because none can be changed.
   */
  function UpdateFollowup(db: Db, identity: Option<Identity>, id: Id, p: FollowupPatch): (r: Result<Db, Error>)
    ensures r.Ok? <==> (ResolveCaller(db.users, identity).Ok? && id in db.followups.rows &&
      db.followups.rows[id].userId == ResolveCaller(db.users, identity).value)
    ensures r.Err? ==> (r.error ==
      if ResolveCaller(db.users, identity).Err? then ResolveCaller(db.users, identity).error
      else if id !in db.followups.rows then NotFound(FollowupsTable)
      else Unauthorized(FollowupsTable))
    ensures r.Ok? ==>
      && r.value == db.(followups := r.value.followups)
      && ReplacedOnly(db.followups, r.value.followups, id, PatchFollowup(db.followups.rows[id], p))
      && r.value.followups.rows[id].interactionId == db.followups.rows[id].interactionId
  {
    var caller :- ResolveCaller(db.users, identity);
    var followup :- Authorize(db.followups, id, caller, FollowupField, FollowupsTable);
    Ok(db.(followups := Put(db.followups, id, PatchFollowup(followup, p))))
  }

  /** `completeFollowup`: mark one of the caller's follow-ups completed; nothing else changes. */
  function CompleteFollowup(db: Db, identity: Option<Identity>, id: Id): (r: Result<Db, Error>)
    ensures r == UpdateFollowup(db, identity, id, FollowupStatusPatch(Completed))
    ensures r.Ok? ==> r.value.followups.rows[id] == db.followups.rows[id].(status := Completed)
  {
    var caller :- ResolveCaller(db.users, identity);
    var followup :- Authorize(db.followups, id, caller, FollowupField, FollowupsTable);
    Ok(db.(followups := Put(db.followups, id, followup.(status := Completed))))
  }
}
