/** The resolver as the source writes it: nested branches, a retry loop, and updates of the tables in place. */
module ExternalResolver {
  import opened Wrappers
  import opened Text
  import opened Usernames
  import opened ExternalTables
  import opened ExternalLogin

  class ExternalResolver {
    const cfg: Config
    var db: Db

    constructor (cfg: Config, db: Db)
      ensures this.cfg == cfg && this.db == db
    {
      this.cfg := cfg;
      this.db := db;
    }

    /** Maps an asserted identity to a local user, or refuses it. */
    method Resolve(provider: string, id: Identity, ids: nat -> UserId) returns (outcome: Outcome)
      modifies this
      ensures (db, outcome) == Resolved(cfg, old(db), provider, id, ids)
    {
      hide Alone, Rank, Utf8Length, Lower, TrimSpace, IsReserved;
      ghost var l := Login(provider, id, Start);
      AloneStep(cfg, db, l, ids);
      if TrimSpace(provider) == "" {
        return Rejected(EmptyProvider);
      }
      var subject := TrimSpace(id.subject);
      if subject == "" {
        return Rejected(NoSubject);
      }
      if Utf8Length(subject) > MAX_SUBJECT_LEN {
        return Rejected(SubjectTooLong);
      }
      var keys := id.claims.Keys;
      while keys != {}
        invariant keys <= id.claims.Keys && forall k <- id.claims.Keys - keys :: !IsReserved(k)
      {
        var k :| k in keys;
        if IsReserved(k) {
          return Rejected(ReservedClaim);
        }
        keys := keys - {k};
      }

      var key := Key(provider, subject);
      if key in db.bindings {
        var user := db.bindings[key];
        AloneStep(cfg, db, l.(phase := LoadBound(user)), ids);
        if db.users[user].banned {
          return Rejected(BoundBanned);
        }
        return Accepted(user, ByBinding);
      }
      if cfg.policy == Off {
        return Rejected(ProvisioningOff);
      }
      var email := Lower(TrimSpace(id.email));
      if email == "" {
        return Rejected(NoEmail);
      }
      if !id.emailVerified {
        return Rejected(EmailUnverified);
      }
      if !cfg.mailOk(email) || exists c <- email :: c in " <>" {
        return Rejected(EmailMalformed);
      }
      AloneStep(cfg, db, l.(phase := FindEmail), ids);
      var found := UserByEmail(db, email);
      if found.Some? {
        if db.users[found.value].banned {
          return Rejected(MatchedBanned);
        }
        outcome := BindIdentity(l, found.value, ByEmail, key, ids);
        return;
      }
      if cfg.policy != Open {
        return Rejected(NoAccount);
      }
      outcome := Provision(l, key, email, id.username, ids);
    }

    /** Records the link; that another login recorded one first is not an error. */
    method BindIdentity(ghost l: Login, user: UserId, route: Route, key: Key, ghost ids: nat -> UserId)
      returns (outcome: Outcome)
      requires key == KeyOf(l)
      modifies this
      ensures (db, outcome) == Alone(cfg, old(db), l.(phase := Bind(user, route)), ids)
    {
      AloneStep(cfg, db, l.(phase := Bind(user, route)), ids);
      match CreateAuthIdentity(db, key, user)
      case Inserted(db') =>
        db := db';
        outcome := Accepted(user, route);
      case UniqueViolation =>
        outcome := Accepted(user, route);
      case OtherViolation =>
        outcome := Failed;
    }

    method PickBase(ghost id: Identity, email: string, suggested: string) returns (base: string)
      requires email == Email(id) && suggested == id.username
      ensures base == BaseName(id)
    {
      base := SanitizeUsername(suggested);
      if base == "" && '@' in email {
        base := SanitizeUsername(LocalPart(email));
      }
      if base == "" {
        base := FALLBACK_NAME;
      }
    }

    /** Creates the account of a verified identity that has none, trying candidate after candidate. */
    method Provision(ghost l: Login, key: Key, email: string, suggested: string, ids: nat -> UserId)
      returns (outcome: Outcome)
      requires key == KeyOf(l) && email == Email(l.id) && suggested == l.id.username
      modifies this
      ensures (db, outcome) == Alone(cfg, old(db), l.(phase := InsertUser(0)), ids)
    {
      hide Alone, Consistent, BaseName, Candidate, KeyOf, Email;
      var base := PickBase(l.id, email, suggested);
      var attempt: nat := 0;
      while attempt < PROVISION_ATTEMPTS
        invariant attempt <= PROVISION_ATTEMPTS && db == old(db)
        invariant Alone(cfg, db, l.(phase := InsertUser(0)), ids)
               == if attempt < PROVISION_ATTEMPTS then Alone(cfg, db, l.(phase := InsertUser(attempt)), ids)
                  else (db, Rejected(NoUsername))
      {
        var user := User(Candidate(base, attempt), email, NO_PASSWORD_HASH, Participant, false, false);
        AloneStep(cfg, db, l.(phase := InsertUser(attempt)), ids);
        match CreateUser(db, ids(attempt), user) {
          case Inserted(db') =>
            db := db';
            outcome := BindIdentity(l, ids(attempt), ByCreation, key, ids);
            return;
          case OtherViolation =>
            return Failed;
          case UniqueViolation =>
            AloneStep(cfg, db, l.(phase := Recheck(attempt)), ids);
            var existing := UserByEmail(db, email);
            if existing.Some? {
              if db.users[existing.value].banned {
                return Rejected(MatchedBanned);
              }
              outcome := BindIdentity(l, existing.value, ByEmail, key, ids);
              return;
            }
        }
        attempt := attempt + 1;
      }
      outcome := Rejected(NoUsername);
    }
  }
}
