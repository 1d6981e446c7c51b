/**
  The checks every handler shares: who is calling, whether a document is the
  caller's, and whether a foreign id names one of the caller's documents.
 */
module Access {
  import opened Results
  import opened Store
  import opened Schema
  import opened Index

  /** What the identity provider hands over for an authenticated request. */
  datatype Identity = Identity(tokenIdentifier: string)

  /** The errors the handlers throw. */
  datatype Error =
    | Unauthenticated                 // "Unauthenticated call to ..."
    | UserNotFound                    // "User not found"
    | UserNotUnique                   // `.unique()` found more than one user row for the token
    | NotFound(table: TableName)      // "<Entity> not found"
    | Unauthorized(table: TableName)  // "Unauthorized access to <entity>"
    | InvalidId(table: TableName)     // "Invalid <entity> ID"
    | NonexistentDocument(table: TableName) // `patch` on an id with no document

  /** `tokenIdentifier` lookup through the `by_token` index. */
  function TokenRange(token: string): Range {
    Range(UsersByToken, [Str(token)], None, None)
  }

  /** The user rows carrying `token`. */
  predicate HasToken(users: Table<User>, id: Id, token: string) {
    id in users.rows && users.rows[id].tokenIdentifier == Some(token)
  }

  /** `id` is the only user row carrying `token`. */
  ghost predicate SoleHolder(users: Table<User>, id: Id, token: string) {
    HasToken(users, id, token) && forall other | HasToken(users, other, token) :: other == id
  }

  /**
    Resolves the caller: no identity is `Unauthenticated`; otherwise the one
    user row whose token is the identity's token, `UserNotFound` when there is
    none, and `UserNotUnique` when `.unique()` finds several.
   */
  function ResolveCaller(users: Table<User>, identity: Option<Identity>): (r: Result<Id, Error>)
    ensures identity.None? <==> r == Err(Unauthenticated)
    ensures r == Err(UserNotFound) <==>
      identity.Some? && forall id | id in users.rows :: !HasToken(users, id, identity.value.tokenIdentifier)
    ensures r.Ok? ==> identity.Some? && SoleHolder(users, r.value, identity.value.tokenIdentifier)
    ensures identity.Some? ==>
      forall id: Id | SoleHolder(users, id, identity.value.tokenIdentifier) :: r == Ok(id)
    ensures r.Err? ==> r.error in {Unauthenticated, UserNotFound, UserNotUnique}
  {
    match identity
    case None => Err(Unauthenticated)
    case Some(ident) =>
      var found := IndexScan(users, TokenRange(ident.tokenIdentifier), UserField);
      TokenScanExact(users, ident.tokenIdentifier);
      if |found| == 0 then
        Err(UserNotFound)
      else if |found| == 1 then
        assert found[0] in found;
        Ok(found[0].id)
      else
        assert found[0] in found && found[1] in found && found[0].id < found[1].id;
        Err(UserNotUnique)
  }

  /** The `by_token` read finds exactly the user rows with that token. */
  lemma TokenScanExact(users: Table<User>, token: string)
    ensures forall d :: d in IndexScan(users, TokenRange(token), UserField) <==>
      Stored(users, d) && HasToken(users, d.id, token)
    ensures forall id | HasToken(users, id, token) :: Doc(id, users.rows[id]) in IndexScan(users, TokenRange(token), UserField)
    ensures forall i, j | 0 <= i < j < |IndexScan(users, TokenRange(token), UserField)| ::
      IndexScan(users, TokenRange(token), UserField)[i].id < IndexScan(users, TokenRange(token), UserField)[j].id
  {
    IndexScanExact(users, TokenRange(token), UserField);
    IndexScanCreationOrder(users, TokenRange(token), UserField);
    forall d: Doc<User> ensures InRange(TokenRange(token), UserField, d.value) <==> d.value.tokenIdentifier == Some(token) {
      InRange1(TokenRange(token), UserField, d.value);
    }
    forall id | HasToken(users, id, token)
      ensures Doc(id, users.rows[id]) in IndexScan(users, TokenRange(token), UserField)
    {
      assert Stored(users, Doc(id, users.rows[id]));
    }
  }

  /** Distinct identities never resolve to the same user row. */
  lemma ResolveCallerInjective(users: Table<User>, a: Option<Identity>, b: Option<Identity>)
    requires ResolveCaller(users, a).Ok? && ResolveCaller(users, b).Ok?
    ensures ResolveCaller(users, a).value == ResolveCaller(users, b).value <==> a == b
  {
    if ResolveCaller(users, a).value == ResolveCaller(users, b).value {
      assert HasToken(users, ResolveCaller(users, a).value, a.value.tokenIdentifier);
      assert HasToken(users, ResolveCaller(users, b).value, b.value.tokenIdentifier);
    }
  }

  /** `document.userId === user._id`, read through the schema's `userId` field. */
  predicate OwnedBy<R>(get: (R, string) -> Value, r: R, caller: Id) {
    get(r, "userId") == Ref(caller)
  }

  /**
    The ownership guard on a fetched id: missing is `NotFound`, someone
    else's is `Unauthorized`, and otherwise the caller's document.
   */
  function Authorize<R>(t: Table<R>, id: Id, caller: Id, get: (R, string) -> Value, table: TableName): (r: Result<R, Error>)
    ensures r.Ok? <==> id in t.rows && OwnedBy(get, t.rows[id], caller)
    ensures r.Ok? ==> r.value == t.rows[id]
    ensures r.Err? ==> r.error == (if id in t.rows then Unauthorized(table) else NotFound(table))
  {
    match Get(t, id)
    case None => Err(NotFound(table))
    case Some(doc) => if OwnedBy(get, doc, caller) then Ok(doc) else Err(Unauthorized(table))
  }

  /** A foreign id must name an existing document owned by the caller; otherwise `InvalidId`. */
  function CheckReference<R>(t: Table<R>, id: Id, caller: Id, get: (R, string) -> Value, table: TableName): (r: Result<(), Error>)
    ensures r.Ok? <==> id in t.rows && OwnedBy(get, t.rows[id], caller)
    ensures r.Err? ==> r.error == InvalidId(table)
  {
    if id in t.rows && OwnedBy(get, t.rows[id], caller) then Ok(()) else Err(InvalidId(table))
  }

  /** An optional foreign id is checked only when it is supplied. */
  function CheckOptionalReference<R>(t: Table<R>, id: Option<Id>, caller: Id, get: (R, string) -> Value, table: TableName): (r: Result<(), Error>)
    ensures r.Ok? <==> id.None? || (id.value in t.rows && OwnedBy(get, t.rows[id.value], caller))
    ensures r.Err? ==> r.error == InvalidId(table)
  {
    match id
    case None => Ok(())
    case Some(ref) => CheckReference(t, ref, caller, get, table)
  }

  // ---------------------------------------------------------------------
  // Reading one document

  /**
    What a single-document read promises, in the order the checks run: no
    identity, then a missing document, then the user lookup, then the owner.
   */
  ghost predicate ReadOutcome<R>(users: Table<User>, identity: Option<Identity>, t: Table<R>, id: Id,
                                 get: (R, string) -> Value, table: TableName, r: Result<R, Error>) {
    && (identity.None? ==> r == Err(Unauthenticated))
    && (identity.Some? && id !in t.rows ==> r == Err(NotFound(table)))
    && (identity.Some? && id in t.rows && ResolveCaller(users, identity).Err? ==>
          r == Err(ResolveCaller(users, identity).error))
    && (ResolveCaller(users, identity).Ok? && id in t.rows ==>
          r == if OwnedBy(get, t.rows[id], ResolveCaller(users, identity).value)
               then Ok(t.rows[id]) else Err(Unauthorized(table)))
  }

  /**
    `get<Entity>Details`: fetch the document first, resolve the caller after,
    and hand the document back only to its owner.
   */
  function GetOwned<R>(users: Table<User>, identity: Option<Identity>, t: Table<R>, id: Id,
                       get: (R, string) -> Value, table: TableName): (r: Result<R, Error>)
    ensures ReadOutcome(users, identity, t, id, get, table, r)
  {
    if identity.None? then Err(Unauthenticated)
    else match Get(t, id)
      case None => Err(NotFound(table))
      case Some(doc) =>
        var caller :- ResolveCaller(users, identity);
        if OwnedBy(get, doc, caller) then Ok(doc) else Err(Unauthorized(table))
  }

  // ---------------------------------------------------------------------
  // The foreign ids a handler checks before writing.

  /** The representative exists and is the caller's. */
  predicate RepresentativeRefValid(db: Db, caller: Id, id: Id) {
    id in db.representatives.rows && db.representatives.rows[id].userId == caller
  }

  /** An issue, when one is named, exists and is the caller's. */
  predicate IssueRefValid(db: Db, caller: Id, issueId: Option<Id>) {
    issueId.Some? ==> issueId.value in db.issues.rows && db.issues.rows[issueId.value].userId == caller
  }

  /** The interaction exists and is the caller's. */
  predicate InteractionRefValid(db: Db, caller: Id, id: Id) {
    id in db.interactions.rows && db.interactions.rows[id].userId == caller
  }

  // ---------------------------------------------------------------------
  // A two-user fixture for the counterexamples

  /** Two users, "alice" (row 0) and "bob" (row 1). */
  function AliceAndBob(): Table<User> {
    RawTable(map[0 := User("A", "a@x", Some("alice"), None), 1 := User("B", "b@x", Some("bob"), None)], 2)
  }

  /** Alice's identity resolves to row 0. */
  lemma AliceResolves()
    ensures ResolveCaller(AliceAndBob(), Some(Identity("alice"))) == Ok(0)
  {
    var users := AliceAndBob();
    assert SoleHolder(users, 0, "alice") by {
      forall other | HasToken(users, other, "alice") ensures other == 0 {
        assert other == 0 || other == 1;
        assert users.rows[1].tokenIdentifier == Some("bob");
      }
    }
  }
}
