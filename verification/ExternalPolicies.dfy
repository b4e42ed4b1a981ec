/** What a single, undisturbed call of Resolve guarantees. */
module ExternalPolicies {
  import opened Sets
  import opened Wrappers
  import opened Text
  import opened Usernames
  import opened ExternalTables
  import opened ExternalLogin

  /** A refusal leaves both tables as they were. */
  lemma {:induction false} RefusalWritesNothing(cfg: Config, db: Db, l: Login, ids: nat -> UserId)
    requires !l.phase.Bind? && Alone(cfg, db, l, ids).1.Rejected?
    ensures Alone(cfg, db, l, ids).0 == db
    decreases Rank(l.phase)
  {
    hide Alone, Consistent;
    AloneDone(cfg, db, l, ids);
    if !l.phase.Done? {
      var newId := if l.phase.InsertUser? then ids(l.phase.attempt) else 0;
      var (db', phase) := Step(cfg, db, l, newId);
      AloneStep(cfg, db, l, ids);
      StepDescends(cfg, db, l, newId);
      if phase.Bind? {
        AloneStep(cfg, db', l.(phase := phase), ids);
      } else {
        assert db' == db;
        RefusalWritesNothing(cfg, db, l.(phase := phase), ids);
      }
    }
  }

  predicate AtLeastAsStrict(p: Policy, q: Policy) {
    p == q || p == Off || q == Open
  }

  /** The policies form a chain: what a stricter one accepts, a laxer one accepts with the same user, by the
      same route and with the same tables afterwards. */
  lemma PoliciesFormAChain(strict: Config, lax: Config, db: Db, provider: string, id: Identity, ids: nat -> UserId)
    requires AtLeastAsStrict(strict.policy, lax.policy) && strict.mailOk == lax.mailOk
    requires Resolved(strict, db, provider, id, ids).1.Accepted?
    ensures Resolved(lax, db, provider, id, ids) == Resolved(strict, db, provider, id, ids)
  {
    hide Alone, Consistent, Rank;
    var l := Login(provider, id, Start);
    AloneStep(strict, db, l, ids);
    AloneStep(lax, db, l, ids);
    var next := l.(phase := OnStart(strict, db, l));
    if next.phase.LoadBound? {
      AloneStep(strict, db, next, ids);
      AloneStep(lax, db, next, ids);
    } else {
      AloneStep(strict, db, next, ids);
      AloneStep(lax, db, next, ids);
      if strict.policy != lax.policy {
        var bind := next.(phase := OnFindEmail(strict, db, next));
        AloneStep(strict, db, bind, ids);
        AloneStep(lax, db, bind, ids);
      } else {
        assert strict == lax;
      }
    }
  }

  /** An accepted unbound login leaves its key bound to the user it returns, who is not banned. */
  lemma {:induction false} AcceptedIsBound(cfg: Config, db: Db, l: Login, ids: nat -> UserId)
    requires l.phase.FindEmail? || l.phase.InsertUser? || l.phase.Recheck? || l.phase.Bind?
    requires KeyOf(l) !in db.bindings
    requires l.phase.Bind? ==> l.phase.user in db.users && !db.users[l.phase.user].banned
    requires Alone(cfg, db, l, ids).1.Accepted?
    ensures var (db', outcome) := Alone(cfg, db, l, ids);
            && KeyOf(l) in db'.bindings && db'.bindings[KeyOf(l)] == outcome.user
            && outcome.user in db'.users && !db'.users[outcome.user].banned
    decreases Rank(l.phase)
  {
    hide Alone, Consistent, Rank;
    var newId := if l.phase.InsertUser? then ids(l.phase.attempt) else 0;
    AloneStep(cfg, db, l, ids);
    StepDescends(cfg, db, l, newId);
    if !l.phase.Bind? {
      AcceptedIsBound(cfg, Step(cfg, db, l, newId).0, l.(phase := Step(cfg, db, l, newId).1), ids);
    }
  }

  lemma AcceptedLeavesABinding(cfg: Config, db: Db, provider: string, id: Identity, ids: nat -> UserId)
    requires Resolved(cfg, db, provider, id, ids).1.Accepted?
    ensures var (db', outcome) := Resolved(cfg, db, provider, id, ids);
            var k := Key(provider, Subject(id));
            k in db'.bindings && db'.bindings[k] == outcome.user && outcome.user in db'.users
                && !db'.users[outcome.user].banned
  {
    hide Alone, Rank;
    var l := Login(provider, id, Start);
    AloneStep(cfg, db, l, ids);
    var next := l.(phase := OnStart(cfg, db, l));
    if next.phase.FindEmail? {
      AcceptedIsBound(cfg, db, next, ids);
    } else {
      AloneStep(cfg, db, next, ids);
    }
  }

  /** A login whose key is bound is its user's, or refused when that user is banned; either way nothing is
      written and neither the policy nor the email is asked. */
  lemma BoundLoginNeedsNoEmail(cfg: Config, db: Db, provider: string, id: Identity, ids: nat -> UserId)
    requires ClaimGate(provider, id).None? && Key(provider, Subject(id)) in db.bindings
    ensures var user := db.bindings[Key(provider, Subject(id))];
            && user in db.users
            && Resolved(cfg, db, provider, id, ids)
            == (db, if db.users[user].banned then Rejected(BoundBanned) else Accepted(user, ByBinding))
  {
    hide Alone, Rank;
    var l := Login(provider, id, Start);
    AloneStep(cfg, db, l, ids);
    AloneStep(cfg, db, l.(phase := OnStart(cfg, db, l)), ids);
  }

  predicate NameTaken(db: Db, name: string) {
    exists id <- db.users :: Lower(db.users[id].username) == Lower(name)
  }

  /** The first attempt from `a` on whose candidate nobody holds. */
  function FirstFree(db: Db, base: string, a: Attempt): Option<Attempt>
    decreases PROVISION_ATTEMPTS - a
  {
    if !NameTaken(db, Candidate(base, a)) then Some(a)
    else if a + 1 < PROVISION_ATTEMPTS then FirstFree(db, base, a + 1)
    else None
  }

  lemma {:induction false} NoneFree(db: Db, base: string, a: Attempt, b: Attempt)
    requires FirstFree(db, base, a).None? && a <= b
    ensures NameTaken(db, Candidate(base, b))
    decreases PROVISION_ATTEMPTS - a
  {
    if a < b {
      NoneFree(db, base, a + 1, b);
    }
  }

  lemma InsertSucceedsWhenFree(db: Db, id: Identity, a: Attempt, newId: UserId)
    requires newId !in db.users && UserByEmail(db, Email(id)).None?
    ensures CreateUser(db, newId, NewAccount(id, a))
         == if NameTaken(db, Candidate(BaseName(id), a)) then UniqueViolation
            else Inserted(db.(users := db.users[newId := NewAccount(id, a)]))
  {
    CandidatesAreLegal(BaseName(id), a);
    LowerIdempotent(TrimSpace(id.email));
    forall other <- db.users
      ensures Lower(db.users[other].email) != Lower(Email(id))
    {
      assert !HasEmail(db, other, Email(id));
    }
  }

  lemma TakenNameTriesTheNext(cfg: Config, db: Db, l: Login, ids: nat -> UserId)
    requires l.phase.InsertUser? && NameTaken(db, Candidate(BaseName(l.id), l.phase.attempt))
    requires UserByEmail(db, Email(l.id)).None? && ids(l.phase.attempt) !in db.users
    ensures Alone(cfg, db, l, ids)
         == if l.phase.attempt + 1 < PROVISION_ATTEMPTS
           then Alone(cfg, db, l.(phase := InsertUser(l.phase.attempt + 1)), ids)
            else (db, Rejected(NoUsername))
  {
    hide Alone, Consistent, Candidate, Rank, NewAccount;
    var a := l.phase.attempt;
    InsertSucceedsWhenFree(db, l.id, a, ids(a));
    AloneStep(cfg, db, l, ids);
    AloneStep(cfg, db, l.(phase := Recheck(a)), ids);
  }

  lemma FreeNameEndsTheSearch(cfg: Config, db: Db, l: Login, ids: nat -> UserId)
    requires l.phase.InsertUser? && !NameTaken(db, Candidate(BaseName(l.id), l.phase.attempt))
        && KeyOf(l) !in db.bindings
    requires UserByEmail(db, Email(l.id)).None? && ids(l.phase.attempt) !in db.users
    ensures var (db', outcome) := Alone(cfg, db, l, ids);
            var user := ids(l.phase.attempt);
            && outcome == Accepted(user, ByCreation)
            && db'.users == db.users[user := NewAccount(l.id, l.phase.attempt)]
            && db'.bindings == db.bindings[KeyOf(l) := user]
  {
    hide Alone, Consistent, Candidate, Rank, NewAccount;
    var a := l.phase.attempt;
    InsertSucceedsWhenFree(db, l.id, a, ids(a));
    AloneStep(cfg, db, l, ids);
    AloneStep(cfg, OnInsertUser(db, l, a, ids(a)).0, l.(phase := Bind(ids(a), ByCreation)), ids);
  }

  /** Provisioning an email nobody has: the account gets the first candidate nobody holds, with the lowest
      role and a password that never verifies, and the identity is bound to it; if every candidate is held,
      the login is refused. */
  lemma {:induction false} ProvisionTakesTheFirstFreeName(cfg: Config, db: Db, l: Login, ids: nat -> UserId)
    requires l.phase.InsertUser? && KeyOf(l) !in db.bindings
    requires UserByEmail(db, Email(l.id)).None? && forall a: Attempt :: ids(a) !in db.users
    ensures var free := FirstFree(db, BaseName(l.id), l.phase.attempt);
            var (db', outcome) := Alone(cfg, db, l, ids);
            if free.None? then db' == db && outcome == Rejected(NoUsername)
            else
              var user := ids(free.value);
              && outcome == Accepted(user, ByCreation)
              && db'.users == db.users[user := NewAccount(l.id, free.value)]
              && db'.bindings == db.bindings[KeyOf(l) := user]
    decreases PROVISION_ATTEMPTS - l.phase.attempt
  {
    hide Alone, Consistent, Candidate, Rank, NewAccount, NameTaken;
    var a := l.phase.attempt;
    if NameTaken(db, Candidate(BaseName(l.id), a)) {
      TakenNameTriesTheNext(cfg, db, l, ids);
      if a + 1 < PROVISION_ATTEMPTS {
        ProvisionTakesTheFirstFreeName(cfg, db, l.(phase := InsertUser(a + 1)), ids);
      }
    } else {
      FreeNameEndsTheSearch(cfg, db, l, ids);
    }
  }

  function NamesHeld(db: Db): set<string> {
    set id <- db.users :: Lower(db.users[id].username)
  }

  lemma {:induction false} FirstFreeIsFree(db: Db, base: string, a: Attempt)
    ensures var free := FirstFree(db, base, a); free.Some? ==> !NameTaken(db, Candidate(base, free.value))
    decreases PROVISION_ATTEMPTS - a
  {
    if NameTaken(db, Candidate(base, a)) && a + 1 < PROVISION_ATTEMPTS {
      FirstFreeIsFree(db, base, a + 1);
    }
  }

  lemma HeldExactly(db: Db, base: string)
    ensures FirstFree(db, base, 0).None? <==> Tried(base) <= NamesHeld(db)
  {
    hide Consistent, Candidate, FirstFree;
    var free := FirstFree(db, base, 0);
    if free.None? {
      forall name <- Tried(base)
        ensures name in NamesHeld(db)
      {
        var a: nat :| a < PROVISION_ATTEMPTS && name == Lower(Candidate(base, a));
        NoneFree(db, base, 0, a);
      }
    } else {
      FirstFreeIsFree(db, base, 0);
      assert Lower(Candidate(base, free.value)) in Tried(base);
    }
  }

  /** Undisturbed, an unused email is turned away exactly when every candidate is held, and that takes at
      least seven different usernames. */
  lemma RefusedNameMeansSevenHeld(cfg: Config, db: Db, l: Login, ids: nat -> UserId)
    requires l.phase == InsertUser(0) && KeyOf(l) !in db.bindings
    requires UserByEmail(db, Email(l.id)).None? && forall a: Attempt :: ids(a) !in db.users
    ensures Alone(cfg, db, l, ids).1.Rejected? <==> Tried(BaseName(l.id)) <= NamesHeld(db)
    ensures Tried(BaseName(l.id)) <= NamesHeld(db) ==> |NamesHeld(db)| >= 7
  {
    hide Alone, Consistent, Candidate;
    var base := BaseName(l.id);
    BaseNameIsLegal(l.id);
    ProvisionTakesTheFirstFreeName(cfg, db, l, ids);
    HeldExactly(db, base);
    AtLeastSevenTried(base);
    if Tried(base) <= NamesHeld(db) {
      SubsetSize(Tried(base), NamesHeld(db));
    }
  }
}
