/**
  The interaction handlers. Listing always reads `by_user_date` bound to the
  caller, optionally within an inclusive date range, filters by
  representative and issue, and returns the newest first.
 */
module Interactions {
  import opened Results
  import opened Store
  import opened Schema
  import opened Index
  import opened Access

  // ---------------------------------------------------------------------
  // Listing

  /** An inclusive window of dates. */
  datatype DateRange = DateRange(start: int, end: int)

  /** The optional filters of `listMyInteractions`. */
  datatype InteractionFilters =
    InteractionFilters(representativeId: Option<Id>, issueId: Option<Id>, dateRange: Option<DateRange>)

  /** The interaction satisfies every supplied filter. */
  predicate InteractionMatches(f: InteractionFilters, r: Interaction) {
    && (f.representativeId.Some? ==> r.representativeId == f.representativeId.value)
    && (f.issueId.Some? ==> r.issueId == f.issueId)
    && (f.dateRange.Some? ==> f.dateRange.value.start <= r.date <= f.dateRange.value.end)
  }

  /** `by_user_date` with the owner bound, and `gte`/`lte` on the date when a range is given. */
  function InteractionRange(caller: Id, f: InteractionFilters): (range: Range)
    ensures range.index in IndexesOf(InteractionsTable) && OwnerPrefixed(range.index)
    ensures range.eq == [Ref(caller)]
  {
    match f.dateRange
    case None => Range(InteractionsByUserDate, [Ref(caller)], None, None)
    case Some(w) => Range(InteractionsByUserDate, [Ref(caller)], Some(w.start), Some(w.end))
  }

  /** The residual predicates on representative and issue. */
  function InteractionFilter(f: InteractionFilters): Interaction -> bool {
    (r: Interaction) =>
      && (f.representativeId.Some? ==> r.representativeId == f.representativeId.value)
      && (f.issueId.Some? ==> r.issueId == f.issueId)
  }

  /** `listMyInteractions`: the filtered range read backwards, newest first. */
  function ListMyInteractions(db: Db, identity: Option<Identity>, f: InteractionFilters)
    : (r: Result<seq<Doc<Interaction>>, Error>)
    ensures r.Err? <==> ResolveCaller(db.users, identity).Err?
    ensures r.Err? ==> r.error == ResolveCaller(db.users, identity).error
  {
    var caller :- ResolveCaller(db.users, identity);
    Ok(Reverse(Filter(IndexScan(db.interactions, InteractionRange(caller, f), InteractionField), InteractionFilter(f))))
  }

  function InteractionDate(r: Interaction): int {
    r.date
  }

  /** An interaction lies in the range exactly when it is the caller's and within any date window. */
  lemma InteractionRangeMembers(caller: Id, f: InteractionFilters, r: Interaction)
    ensures InRange(InteractionRange(caller, f), InteractionField, r) <==>
      r.userId == caller && (f.dateRange.Some? ==> f.dateRange.value.start <= r.date <= f.dateRange.value.end)
    ensures RangeKey(InteractionRange(caller, f), InteractionField, r) == r.date
  {
    var range := InteractionRange(caller, f);
    assert range.index.fields[0] == "userId" && range.index.fields[1] == "date";
    assert NextKey(range, InteractionField, r) == Num(r.date);
  }

  /**
    The list is exactly the caller's interactions matching every filter, the
    date window inclusive at both ends, in descending date order.
   */
  lemma ListMyInteractionsExact(db: Db, identity: Option<Identity>, f: InteractionFilters)
    requires ResolveCaller(db.users, identity).Ok?
    ensures ListMyInteractions(db, identity, f).Ok?
    ensures forall d :: d in ListMyInteractions(db, identity, f).value <==>
      && Stored(db.interactions, d)
      && d.value.userId == ResolveCaller(db.users, identity).value
      && InteractionMatches(f, d.value)
    ensures Descending(ListMyInteractions(db, identity, f).value, InteractionDate)
  {
    var caller := ResolveCaller(db.users, identity).value;
    var range := InteractionRange(caller, f);
    var scan := IndexScan(db.interactions, range, InteractionField);
    var filtered := Filter(scan, InteractionFilter(f));
    IndexScanExact(db.interactions, range, InteractionField);
    FilterMembers(scan, InteractionFilter(f));
    forall d: Doc<Interaction> ensures InRange(range, InteractionField, d.value) <==>
      d.value.userId == caller && (f.dateRange.Some? ==> f.dateRange.value.start <= d.value.date <= f.dateRange.value.end)
    {
      InteractionRangeMembers(caller, f, d.value);
    }
    FilterKeepsOrder(scan, InteractionFilter(f), Key(range, InteractionField));
    forall i | 0 <= i < |filtered| ensures Key(range, InteractionField)(filtered[i].value) == InteractionDate(filtered[i].value) {
      InteractionRangeMembers(caller, f, filtered[i].value);
    }
    AscendingSameKey(filtered, Key(range, InteractionField), InteractionDate);
    ReverseDescending(filtered, InteractionDate);
  }

  // ---------------------------------------------------------------------
  // Reading one interaction

  /** `getInteractionDetails`: the owner-checked read of one interaction. */
  function GetInteractionDetails(db: Db, identity: Option<Identity>, id: Id): (r: Result<Interaction, Error>)
    ensures ReadOutcome(db.users, identity, db.interactions, id, InteractionField, InteractionsTable, r)
  {
    GetOwned(db.users, identity, db.interactions, id, InteractionField, InteractionsTable)
  }

  // ---------------------------------------------------------------------
  // Logging

  /** The arguments of `logInteraction`. */
  datatype NewInteraction = NewInteraction(
    representativeId: Id, issueId: Option<Id>, kind: InteractionType, date: int, notes: string, outcome: Outcome,
    followUpNeeded: bool, messageFeedback: Option<MessageFeedback>)

  /** `{ userId, ...args }`. */
  function InteractionOf(caller: Id, a: NewInteraction): Interaction {
    Interaction(caller, a.representativeId, a.issueId, a.kind, a.date, a.notes, a.outcome, a.followUpNeeded, a.messageFeedback)
  }

  function NewInteractionOf(r: Interaction): NewInteraction {
    NewInteraction(r.representativeId, r.issueId, r.kind, r.date, r.notes, r.outcome, r.followUpNeeded, r.messageFeedback)
  }

  /**
    `logInteraction`: the representative is checked first, then the optional
    issue; a failed check inserts nothing, and the new interaction belongs to
    the caller and carries the arguments.
   */
  function LogInteraction(db: Db, identity: Option<Identity>, a: NewInteraction): (r: Result<(Db, Id), Error>)
    ensures r.Ok? <==> (ResolveCaller(db.users, identity).Ok? &&
      RepresentativeRefValid(db, ResolveCaller(db.users, identity).value, a.representativeId) &&
      IssueRefValid(db, ResolveCaller(db.users, identity).value, a.issueId))
    ensures r.Err? ==> (r.error ==
      if ResolveCaller(db.users, identity).Err? then ResolveCaller(db.users, identity).error
      else if !RepresentativeRefValid(db, ResolveCaller(db.users, identity).value, a.representativeId)
      then InvalidId(RepresentativesTable)
      else InvalidId(IssuesTable))
    ensures r.Ok? ==>
      var (db', id) := r.value;
      && id in db'.interactions.rows && InsertedOnly(db.interactions, db'.interactions, id, db'.interactions.rows[id])
      && db'.interactions.rows[id].userId == ResolveCaller(db.users, identity).value
      && NewInteractionOf(db'.interactions.rows[id]) == a
      && db' == db.(interactions := db'.interactions)
  {
    var caller :- ResolveCaller(db.users, identity);
    var repChecked :- CheckReference(db.representatives, a.representativeId, caller, RepresentativeField, RepresentativesTable);
    var issueChecked :- CheckOptionalReference(db.issues, a.issueId, caller, IssueField, IssuesTable);
    var (interactions, id) := Insert(db.interactions, InteractionOf(caller, a));
    Ok((db.(interactions := interactions), id))
  }

  /** A logged interaction is readable by its author as logged. */
  lemma LogThenGet(db: Db, identity: Option<Identity>, a: NewInteraction)
    requires LogInteraction(db, identity, a).Ok?
    ensures var (db', id) := LogInteraction(db, identity, a).value;
      && GetInteractionDetails(db', identity, id).Ok?
      && NewInteractionOf(GetInteractionDetails(db', identity, id).value) == a
  {
    var (db', id) := LogInteraction(db, identity, a).value;
    assert db'.users == db.users;
  }

  // ---------------------------------------------------------------------
  // Updating

  /** The optional fields of `updateInteraction`: the representative is not among them. */
  datatype InteractionPatch = InteractionPatch(
    issueId: Option<Id>, kind: Option<InteractionType>, date: Option<int>, notes: Option<string>,
    outcome: Option<Outcome>, followUpNeeded: Option<bool>, messageFeedback: Option<MessageFeedback>)

  /** `patch(id, updates)` on an interaction: the owner and the representative always stay. */
  function PatchInteraction(r: Interaction, p: InteractionPatch): (r': Interaction)
    ensures r'.userId == r.userId && r'.representativeId == r.representativeId
    ensures p.issueId.Some? ==> r'.issueId == p.issueId
    ensures p.issueId.None? ==> r'.issueId == r.issueId
  {
    Interaction(
      r.userId,
      r.representativeId,
      OverrideOptional(r.issueId, p.issueId),
      Override(r.kind, p.kind),
      Override(r.date, p.date),
      Override(r.notes, p.notes),
      Override(r.outcome, p.outcome),
      Override(r.followUpNeeded, p.followUpNeeded),
      OverrideOptional(r.messageFeedback, p.messageFeedback))
  }

  /** Applying the same interaction patch twice is applying it once. */
  lemma PatchInteractionIdempotent(r: Interaction, p: InteractionPatch)
    ensures PatchInteraction(PatchInteraction(r, p), p) == PatchInteraction(r, p)
  {
  }

  /**
    `updateInteraction`: owner check, then the optional issue check, then
    the patch; a failure writes nothing and no update moves an interaction to
    another representative.
   */
  function UpdateInteraction(db: Db, identity: Option<Identity>, id: Id, p: InteractionPatch): (r: Result<Db, Error>)
    ensures r.Ok? <==> (ResolveCaller(db.users, identity).Ok? && id in db.interactions.rows &&
      db.interactions.rows[id].userId == ResolveCaller(db.users, identity).value &&
      IssueRefValid(db, ResolveCaller(db.users, identity).value, p.issueId))
    ensures r.Err? ==> (r.error ==
      if ResolveCaller(db.users, identity).Err? then ResolveCaller(db.users, identity).error
      else if id !in db.interactions.rows then NotFound(InteractionsTable)
      else if db.interactions.rows[id].userId != ResolveCaller(db.users, identity).value then Unauthorized(InteractionsTable)
      else InvalidId(IssuesTable))
    ensures r.Ok? ==>
      && r.value == db.(interactions := r.value.interactions)
      && ReplacedOnly(db.interactions, r.value.interactions, id, PatchInteraction(db.interactions.rows[id], p))
      && r.value.interactions.rows[id].representativeId == db.interactions.rows[id].representativeId
  {
    var caller :- ResolveCaller(db.users, identity);
    var interaction :- Authorize(db.interactions, id, caller, InteractionField, InteractionsTable);
    var issueChecked :- CheckOptionalReference(db.issues, p.issueId, caller, IssueField, IssuesTable);
    Ok(db.(interactions := Put(db.interactions, id, PatchInteraction(interaction, p))))
  }
}
