/**
  The profile store: it is not bound to the caller's identity. It reads the
  first user row, inserts default rows, and patches name and email of any
  row by id. The rows it inserts carry no token, so no identity ever
  resolves to them.
 */
module Users {
  import opened Results
  import opened Store
  import opened Schema
  import opened Access

  /** The row `createUser` and `getOrCreateUser` insert. */
  const DefaultUser := User("New User", "newuser@example.com", None, None)

  function Everyone(): User -> bool {
    (u: User) => true
  }

  /** `query("users").collect()`: every user row, in creation order. */
  function AllUsers(users: Table<User>): (s: seq<Doc<User>>)
    ensures forall d :: d in s <==> Stored(users, d)
    ensures CreationOrdered(s)
  {
    CollectExact(users, Everyone());
    Collect(users, Everyone())
  }

  /** The first row of a full read is the oldest, and the read is empty only for an empty table. */
  lemma AllUsersFirstOldest(users: Table<User>)
    ensures |AllUsers(users)| == 0 <==> users.rows == map[]
    ensures |AllUsers(users)| > 0 ==> forall id | id in users.rows :: AllUsers(users)[0].id <= id
  {
    var all := AllUsers(users);
    forall id | id in users.rows ensures |all| > 0 && all[0].id <= id {
      assert Doc(id, users.rows[id]) in all;
    }
    if |all| > 0 {
      assert all[0] in all;
    }
  }

  /** `getMyProfile`: the oldest user row, or nothing when there is none. */
  function GetMyProfile(users: Table<User>): (r: Option<Doc<User>>)
    ensures r.None? <==> users.rows == map[]
    ensures r.Some? ==> Stored(users, r.value) && forall id | id in users.rows :: r.value.id <= id
  {
    var all := AllUsers(users);
    AllUsersFirstOldest(users);
    if |all| > 0 then
      assert all[0] in all;
      Some(all[0])
    else
      None
  }

  /** `createUser`: always inserts a fresh default row. */
  function CreateUser(users: Table<User>): (r: (Table<User>, Id))
    ensures InsertedOnly(users, r.0, r.1, DefaultUser)
  {
    Insert(users, DefaultUser)
  }

  /** Two `createUser` calls give two distinct new rows: the call is not idempotent. */
  lemma CreateUserTwice(users: Table<User>)
    ensures var (once, a) := CreateUser(users);
      var (twice, b) := CreateUser(once);
      && a != b && a !in users.rows && b !in users.rows
      && twice.rows.Keys == users.rows.Keys + {a, b}
      && |twice.rows| == |users.rows| + 2
  {
    var (once, a) := CreateUser(users);
    var (twice, b) := CreateUser(once);
    assert once.rows.Keys == users.rows.Keys + {a};
    assert twice.rows.Keys == once.rows.Keys + {b};
  }

  /** Creating a profile row changes no caller's resolution, since the row has no token. */
  lemma CreateUserKeepsCallers(users: Table<User>, identity: Option<Identity>)
    ensures ResolveCaller(CreateUser(users).0, identity) == ResolveCaller(users, identity)
  {
    var after := CreateUser(users).0;
    if identity.Some? {
      var token := identity.value.tokenIdentifier;
      assert forall id :: HasToken(after, id, token) <==> HasToken(users, id, token);
      assert forall id :: SoleHolder(after, id, token) <==> SoleHolder(users, id, token);
    }
  }

  /**
    `getOrCreateUser`: the oldest row when there is one, with nothing
    written; otherwise exactly one new default row, which is returned.
   */
  function GetOrCreateUser(users: Table<User>): (r: (Table<User>, Doc<User>))
    ensures users.rows != map[] ==> r.0 == users && Some(r.1) == GetMyProfile(users)
    ensures users.rows == map[] ==> InsertedOnly(users, r.0, r.1.id, DefaultUser) && r.1.value == DefaultUser
  {
    match GetMyProfile(users)
    case Some(first) => (users, first)
    case None =>
      var (users', id) := Insert(users, DefaultUser);
      (users', Doc(id, DefaultUser))
  }

  /** A second `getOrCreateUser` writes nothing and returns the same row as the first. */
  lemma GetOrCreateUserStable(users: Table<User>)
    ensures var (once, first) := GetOrCreateUser(users);
      GetOrCreateUser(once) == (once, first)
  {
    var (once, first) := GetOrCreateUser(users);
    if users.rows == map[] {
      assert once.rows == map[first.id := DefaultUser];
      assert once.rows != map[];
      assert forall id | id in once.rows :: id == first.id;
    }
  }

  /**
    `updateProfile`: patch name and email of the row `id`, whoever asks; a
    missing row is an error and writes nothing.
   */
  function UpdateProfile(users: Table<User>, id: Id, name: Option<string>, email: Option<string>)
    : (r: Result<Table<User>, Error>)
    ensures r.Err? <==> id !in users.rows
    ensures r.Err? ==> r.error == NonexistentDocument(UsersTable)
    ensures r.Ok? ==>
      && ReplacedOnly(users, r.value, id, users.rows[id].(name := Override(users.rows[id].name, name),
                                                          email := Override(users.rows[id].email, email)))
      && r.value.rows[id].tokenIdentifier == users.rows[id].tokenIdentifier
      && r.value.rows[id].preferences == users.rows[id].preferences
  {
    if id !in users.rows then Err(NonexistentDocument(UsersTable))
    else
      var u := users.rows[id];
      Ok(Put(users, id, u.(name := Override(u.name, name), email := Override(u.email, email))))
  }

  /** Updating a profile changes no caller's resolution: name and email are not identity. */
  lemma UpdateProfileKeepsCallers(users: Table<User>, id: Id, name: Option<string>, email: Option<string>,
                                  identity: Option<Identity>)
    requires UpdateProfile(users, id, name, email).Ok?
    ensures ResolveCaller(UpdateProfile(users, id, name, email).value, identity) == ResolveCaller(users, identity)
  {
    var after := UpdateProfile(users, id, name, email).value;
    if identity.Some? {
      var token := identity.value.tokenIdentifier;
      assert forall other :: HasToken(after, other, token) <==> HasToken(users, other, token);
      assert forall other :: SoleHolder(after, other, token) <==> SoleHolder(users, other, token);
    }
  }
}
