/**
  The representative handlers. Listing reads `by_user` bound to the caller
  and filters by level and district; an empty district is no filter.
 */
module Representatives {
  import opened Results
  import opened Store
  import opened Schema
  import opened Index
  import opened Access

  // ---------------------------------------------------------------------
  // Listing

  /** The optional filters of `listMyRepresentatives`. */
  datatype RepresentativeFilters = RepresentativeFilters(level: Option<Level>, district: Option<string>)

  /** The district filter takes part only when it is a non-empty string (a truthiness test). */
  predicate DistrictApplies(f: RepresentativeFilters) {
    f.district.Some? && f.district.value != ""
  }

  /** The representative satisfies every filter that takes part. */
  predicate RepresentativeMatches(f: RepresentativeFilters, r: Representative) {
    && (f.level.Some? ==> r.level == f.level.value)
    && (DistrictApplies(f) ==> r.district == f.district)
  }

  function RepresentativeFilter(f: RepresentativeFilters): Representative -> bool {
    (r: Representative) => RepresentativeMatches(f, r)
  }

  /** `by_user` bound to the caller. */
  function OwnerRange(caller: Id): (range: Range)
    ensures range.index in IndexesOf(RepresentativesTable)
    ensures range.eq == [Ref(caller)] && |range.index.fields| == 1
  {
    Range(RepresentativesByUser, [Ref(caller)], None, None)
  }

  /** `listMyRepresentatives`: the caller's representatives, filtered, in creation order. */
  function ListMyRepresentatives(db: Db, identity: Option<Identity>, f: RepresentativeFilters)
    : (r: Result<seq<Doc<Representative>>, Error>)
    ensures r.Err? <==> ResolveCaller(db.users, identity).Err?
    ensures r.Err? ==> r.error == ResolveCaller(db.users, identity).error
  {
    var caller :- ResolveCaller(db.users, identity);
    Ok(Filter(IndexScan(db.representatives, OwnerRange(caller), RepresentativeField), RepresentativeFilter(f)))
  }

  /** The list is exactly the caller's representatives matching the filters, in creation order. */
  lemma ListMyRepresentativesExact(db: Db, identity: Option<Identity>, f: RepresentativeFilters)
    requires ResolveCaller(db.users, identity).Ok?
    ensures ListMyRepresentatives(db, identity, f).Ok?
    ensures forall d :: d in ListMyRepresentatives(db, identity, f).value <==>
      && Stored(db.representatives, d)
      && d.value.userId == ResolveCaller(db.users, identity).value
      && RepresentativeMatches(f, d.value)
    ensures CreationOrdered(ListMyRepresentatives(db, identity, f).value)
  {
    var caller := ResolveCaller(db.users, identity).value;
    var range := OwnerRange(caller);
    var scan := IndexScan(db.representatives, range, RepresentativeField);
    IndexScanExact(db.representatives, range, RepresentativeField);
    IndexScanCreationOrder(db.representatives, range, RepresentativeField);
    FilterMembers(scan, RepresentativeFilter(f));
    FilterKeepsCreationOrder(scan, RepresentativeFilter(f));
    forall d: Doc<Representative> ensures InRange(range, RepresentativeField, d.value) <==> d.value.userId == caller {
      InRange1(range, RepresentativeField, d.value);
    }
  }

  /** An empty district filter lists the same as no district filter. */
  lemma EmptyDistrictIgnored(db: Db, identity: Option<Identity>, level: Option<Level>)
    requires ResolveCaller(db.users, identity).Ok?
    ensures ListMyRepresentatives(db, identity, RepresentativeFilters(level, Some(""))) ==
            ListMyRepresentatives(db, identity, RepresentativeFilters(level, None))
  {
    var empty := RepresentativeFilters(level, Some(""));
    var none := RepresentativeFilters(level, None);
    ListMyRepresentativesExact(db, identity, empty);
    ListMyRepresentativesExact(db, identity, none);
    CreationOrderUnique(ListMyRepresentatives(db, identity, empty).value, ListMyRepresentatives(db, identity, none).value);
  }

  // ---------------------------------------------------------------------
  // Reading one representative

  /** `getRepresentativeDetails`: the owner-checked read of one representative. */
  function GetRepresentativeDetails(db: Db, identity: Option<Identity>, id: Id): (r: Result<Representative, Error>)
    ensures ReadOutcome(db.users, identity, db.representatives, id, RepresentativeField, RepresentativesTable, r)
  {
    GetOwned(db.users, identity, db.representatives, id, RepresentativeField, RepresentativesTable)
  }

  // ---------------------------------------------------------------------
  // Adding

  /** The arguments of `addRepresentative`. */
  datatype NewRepresentative = NewRepresentative(
    name: string, title: string, office: string, level: Level, district: Option<string>, contactInfo: ContactInfo,
    notes: Option<string>, communicationPreferences: Option<CommunicationPreferences>)

  /** `{ userId, ...args }`. */
  function RepresentativeOf(caller: Id, a: NewRepresentative): Representative {
    Representative(caller, a.name, a.title, a.office, a.level, a.district, a.contactInfo, a.notes, a.communicationPreferences)
  }

  function NewRepresentativeOf(r: Representative): NewRepresentative {
    NewRepresentative(r.name, r.title, r.office, r.level, r.district, r.contactInfo, r.notes, r.communicationPreferences)
  }

  /** `addRepresentative`: the new representative is the caller's and carries exactly the arguments. */
  function AddRepresentative(db: Db, identity: Option<Identity>, a: NewRepresentative): (r: Result<(Db, Id), Error>)
    ensures r.Err? <==> ResolveCaller(db.users, identity).Err?
    ensures r.Err? ==> r.error == ResolveCaller(db.users, identity).error
    ensures r.Ok? ==>
      var (db', id) := r.value;
      && id in db'.representatives.rows
      && InsertedOnly(db.representatives, db'.representatives, id, db'.representatives.rows[id])
      && db'.representatives.rows[id].userId == ResolveCaller(db.users, identity).value
      && NewRepresentativeOf(db'.representatives.rows[id]) == a
      && db' == db.(representatives := db'.representatives)
  {
    var caller :- ResolveCaller(db.users, identity);
    var (representatives, id) := Insert(db.representatives, RepresentativeOf(caller, a));
    Ok((db.(representatives := representatives), id))
  }

  /** Reading back a freshly added representative returns it as added. */
  lemma AddThenGet(db: Db, identity: Option<Identity>, a: NewRepresentative)
    requires AddRepresentative(db, identity, a).Ok?
    ensures var (db', id) := AddRepresentative(db, identity, a).value;
      GetRepresentativeDetails(db', identity, id) == Ok(RepresentativeOf(ResolveCaller(db.users, identity).value, a))
  {
  }

  /** An added representative is listed for its owner under any filters it matches. */
  lemma AddThenList(db: Db, identity: Option<Identity>, a: NewRepresentative, f: RepresentativeFilters)
    requires AddRepresentative(db, identity, a).Ok?
    ensures var (db', id) := AddRepresentative(db, identity, a).value;
      var added := RepresentativeOf(ResolveCaller(db.users, identity).value, a);
      Doc(id, added) in ListMyRepresentatives(db', identity, f).value <==> RepresentativeMatches(f, added)
  {
    var (db', id) := AddRepresentative(db, identity, a).value;
    assert db'.users == db.users;
    ListMyRepresentativesExact(db', identity, f);
  }

  // ---------------------------------------------------------------------
  // Updating

  /** The optional fields of `updateRepresentative`; `id` is not among them. */
  datatype RepresentativePatch = RepresentativePatch(
    name: Option<string>, title: Option<string>, office: Option<string>, level: Option<Level>,
    district: Option<string>, contactInfo: Option<ContactInfo>, notes: Option<string>,
    communicationPreferences: Option<CommunicationPreferences>)

  /** `patch(id, updates)` on a representative: supplied fields replace, the rest and the owner stay. */
  function PatchRepresentative(r: Representative, p: RepresentativePatch): (r': Representative)
    ensures r'.userId == r.userId
    ensures p.level.None? ==> r'.level == r.level
  {
    Representative(
      r.userId,
      Override(r.name, p.name),
      Override(r.title, p.title),
      Override(r.office, p.office),
      Override(r.level, p.level),
      OverrideOptional(r.district, p.district),
      Override(r.contactInfo, p.contactInfo),
      OverrideOptional(r.notes, p.notes),
      OverrideOptional(r.communicationPreferences, p.communicationPreferences))
  }

  /** Applying the same representative patch twice is applying it once. */
  lemma PatchRepresentativeIdempotent(r: Representative, p: RepresentativePatch)
    ensures PatchRepresentative(PatchRepresentative(r, p), p) == PatchRepresentative(r, p)
  {
  }

  /** `updateRepresentative`: a missing or foreign representative is rejected with no write. */
  function UpdateRepresentative(db: Db, identity: Option<Identity>, id: Id, p: RepresentativePatch): (r: Result<Db, Error>)
    ensures r.Ok? <==> (ResolveCaller(db.users, identity).Ok? && id in db.representatives.rows &&
      db.representatives.rows[id].userId == ResolveCaller(db.users, identity).value)
    ensures r.Err? ==> (r.error ==
      if ResolveCaller(db.users, identity).Err? then ResolveCaller(db.users, identity).error
      else if id !in db.representatives.rows then NotFound(RepresentativesTable)
      else Unauthorized(RepresentativesTable))
    ensures r.Ok? ==>
      && r.value == db.(representatives := r.value.representatives)
      && ReplacedOnly(db.representatives, r.value.representatives, id, PatchRepresentative(db.representatives.rows[id], p))
  {
    var caller :- ResolveCaller(db.users, identity);
    var representative :- Authorize(db.representatives, id, caller, RepresentativeField, RepresentativesTable);
    Ok(db.(representatives := Put(db.representatives, id, PatchRepresentative(representative, p))))
  }
}
