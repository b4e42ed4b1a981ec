/**
 The two tables an external login reads and writes, with the constraints the database enforces, and the
 queries the resolver runs against them. Usernames and emails are compared without regard to letter case.
 */
module ExternalTables {
  import opened Wrappers
  import opened Text
  import opened Usernames

  type UserId = nat

  datatype Role = Participant | Admin

  datatype User = User(username: string, email: string, passwordHash: string, role: Role, banned: bool, hidden: bool)

  datatype Key = Key(provider: string, subject: string)

  datatype Tables = Tables(users: map<UserId, User>, bindings: map<Key, UserId>)

  predicate Clash(a: User, b: User) {
    Lower(a.username) == Lower(b.username) || Lower(a.email) == Lower(b.email)
  }

  /** Unique usernames and emails, the length check, and no binding to a user that does not exist. */
  predicate Consistent(t: Tables) {
    && (forall a, b | a in t.users && b in t.users && a != b :: !Clash(t.users[a], t.users[b]))
    && (forall a <- t.users :: USERNAME_MIN_LEN <= |t.users[a].username| <= USERNAME_MAX_LEN)
    && (forall k <- t.bindings :: t.bindings[k] in t.users)
  }

  type Db = t: Tables | Consistent(t) witness Tables(map[], map[])

  datatype Insert = Inserted(db: Db) | UniqueViolation | OtherViolation

  predicate HasEmail(db: Db, id: UserId, email: string) {
    id in db.users && Lower(db.users[id].email) == Lower(email)
  }

  function UserByEmail(db: Db, email: string): (r: Option<UserId>)
    ensures r.Some? ==> HasEmail(db, r.value, email) && forall id :: HasEmail(db, id, email) ==> id == r.value
    ensures r.None? ==> forall id :: !HasEmail(db, id, email)
  {
    if exists id <- db.users :: HasEmail(db, id, email) then
      var id :| id in db.users && HasEmail(db, id, email);
      assert forall a, b | HasEmail(db, a, email) && HasEmail(db, b, email) && a != b ::
          Clash(db.users[a], db.users[b]);
      Some(id)
    else
      None
  }

  function CreateUser(db: Db, id: UserId, user: User): Insert {
    if !(USERNAME_MIN_LEN <= |user.username| <= USERNAME_MAX_LEN) then OtherViolation
    else if id in db.users || exists other <- db.users :: Clash(user, db.users[other]) then UniqueViolation
    else Inserted(db.(users := db.users[id := user]))
  }

  function CreateAuthIdentity(db: Db, key: Key, user: UserId): Insert {
    if key in db.bindings then UniqueViolation
    else if user !in db.users then OtherViolation
    else Inserted(db.(bindings := db.bindings[key := user]))
  }

  function Admins(db: Db): set<UserId> {
    set id <- db.users | db.users[id].role == Admin
  }
}
