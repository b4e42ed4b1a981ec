/**
 What runs of many logins mean for the logins that come after them, for the search for a username, and for two
 logins that assert different emails.
 */
module ExternalOutcomes {
  import opened Sets
  import opened Text
  import opened Usernames
  import opened ExternalTables
  import opened ExternalLogin
  import opened ExternalPolicies
  import opened ExternalRuns

  // ---- logins that come later --------------------------------------------------------------

  /** Whatever runs after a binding was stored, a login with its key gets the user it names, or is refused
      once that user is banned, and writes nothing. */
  lemma BindingsDecideLaterLogins(s: System, cfg: Config, ops: seq<Op>, later: Config, provider: string, id: Identity,
                                  ids: nat -> UserId)
    requires ClaimGate(provider, id).None? && Key(provider, Subject(id)) in s.db.bindings
    ensures var user, db := s.db.bindings[Key(provider, Subject(id))], Run(s, cfg, ops).db;
            && user in db.users
            && Resolved(later, db, provider, id, ids)
            == (db, if db.users[user].banned then Rejected(BoundBanned) else Accepted(user, ByBinding))
  {
    hide Consistent, Resolved, ClaimGate, Run;
    RunGrows(s, cfg, ops);
    BoundLoginNeedsNoEmail(later, Run(s, cfg, ops).db, provider, id, ids);
  }

  /** Once accepted, the same subject at the same provider gets the same user again as long as that user is
      not banned: after any run of logins, registrations, bans and role changes, under every policy, whatever
      it now says about its email, and without a write. */
  lemma RepeatLoginIsStable(cfg: Config, db: Db, provider: string, id: Identity, ids: nat -> UserId,
                            s: System, between: Config, ops: seq<Op>, later: Config, id': Identity, ids': nat -> UserId)
    requires Resolved(cfg, db, provider, id, ids).1.Accepted? && s.db == Resolved(cfg, db, provider, id, ids).0
    requires Subject(id') == Subject(id) && ClaimGate(provider, id').None?
    ensures var user, db' := Resolved(cfg, db, provider, id, ids).1.user, Run(s, between, ops).db;
            && user in db'.users
            && Resolved(later, db', provider, id', ids')
            == (db', if db'.users[user].banned then Rejected(BoundBanned) else Accepted(user, ByBinding))
  {
    hide Consistent, Resolved, ClaimGate, Run, Subject;
    AcceptedLeavesABinding(cfg, db, provider, id, ids);
    BindingsDecideLaterLogins(s, between, ops, later, provider, id', ids');
  }

  /** The same for a login accepted among others: after any further run its key leads to the user bound to it,
      who is the user it was accepted as exactly when it came through the binding or asserted the email of the
      login that recorded it. */
  lemma RepeatAfterAnyRun(db: Db, cfg: Config, ops: seq<Op>, c: CallId, between: Config, more: seq<Op>,
                          later: Config, id': Identity, ids': nat -> UserId)
    requires AcceptedIn(Run(Init(db), cfg, ops), c)
    requires var l := Run(Init(db), cfg, ops).logins[c];
             Subject(id') == Subject(l.id) && ClaimGate(l.provider, id').None?
    ensures var s := Run(Init(db), cfg, ops);
            var l, db' := s.logins[c], Run(s, between, more).db;
            var Accepted(user, route) := l.phase.outcome;
            && KeyOf(l) in s.db.bindings
            && var bound := s.db.bindings[KeyOf(l)];
            && bound in db'.users
            && Resolved(later, db', l.provider, id', ids')
            == (db', if db'.users[bound].banned then Rejected(BoundBanned) else Accepted(bound, ByBinding))
            && (route == ByBinding ==> bound == user)
            && (route != ByBinding ==>
                  && KeyOf(l) in s.writer && s.writer[KeyOf(l)] in s.logins
                  && (bound == user <==> Email(s.logins[s.writer[KeyOf(l)]].id) == Email(l.id)))
  {
    hide Consistent, Resolved, ClaimGate, Run, Subject, Email;
    ReturnsTheBoundUserExactly(db, cfg, ops, c);
    var s := Run(Init(db), cfg, ops);
    BindingsDecideLaterLogins(s, between, more, later, s.logins[c].provider, id', ids');
  }

  // ---- the search for a username -----------------------------------------------------------

  predicate Held(db: Db, name: string) {
    Lower(name) in NamesHeld(db)
  }

  predicate HeldBefore(db: Db, base: string, a: nat) {
    forall b: Attempt | b < a :: Held(db, Candidate(base, b))
  }

  /** What a login knows of the candidates it has tried. */
  predicate SearchOk(db: Db, l: Login) {
    match l.phase
    case InsertUser(a) => HeldBefore(db, BaseName(l.id), a)
    case Recheck(a) =>
      HeldBefore(db, BaseName(l.id), a)
          && (Held(db, Candidate(BaseName(l.id), a)) || UserByEmail(db, Email(l.id)).Some?)
    case Done(Rejected(NoUsername)) => HeldBefore(db, BaseName(l.id), PROVISION_ATTEMPTS)
    case _ => true
  }

  /** Usernames are never given up. */
  predicate NamesGrow(db: Db, db': Db) {
    Grows(db, db') && NamesHeld(db) <= NamesHeld(db')
  }

  lemma SearchStaysOk(db: Db, db': Db, l: Login)
    requires SearchOk(db, l) && NamesGrow(db, db')
    ensures SearchOk(db', l)
  {
    hide Consistent, Candidate, BaseName, NamesHeld, Email, Lower;
    var found := UserByEmail(db, Email(l.id));
    if found.Some? {
      assert HasEmail(db', found.value, Email(l.id));
    }
  }

  lemma ClashMeansHeld(db: Db, id: Identity, a: Attempt, newId: UserId)
    requires newId !in db.users && CreateUser(db, newId, NewAccount(id, a)).UniqueViolation?
    ensures Held(db, Candidate(BaseName(id), a)) || UserByEmail(db, Email(id)).Some?
  {
    hide Consistent, Candidate, BaseName, Email, Lower;
    var other :| other in db.users && Clash(NewAccount(id, a), db.users[other]);
    if Lower(db.users[other].email) == Lower(Email(id)) {
      assert HasEmail(db, other, Email(id));
    } else {
      assert Lower(db.users[other].username) in NamesHeld(db);
    }
  }

  lemma StepNamesGrow(cfg: Config, db: Db, l: Login, newId: UserId)
    ensures NamesGrow(db, ExternalLogin.Step(cfg, db, l, newId).0)
  {
    hide Consistent, NewAccount, Lower;
    StepGrows(cfg, db, l, newId);
    var db' := ExternalLogin.Step(cfg, db, l, newId).0;
    forall id <- db.users
      ensures Lower(db.users[id].username) in NamesHeld(db')
    {
      assert id in db'.users && db'.users[id] == db.users[id];
    }
  }

  lemma StepSearches(cfg: Config, db: Db, l: Login, newId: UserId)
    requires SearchOk(db, l) && (l.phase.InsertUser? ==> newId !in db.users)
    ensures var (db', phase) := ExternalLogin.Step(cfg, db, l, newId); SearchOk(db', l.(phase := phase))
  {
    hide Consistent, Candidate, BaseName, NamesHeld, Email, Lower, NewAccount, CreateUser, KeyOf;
    match l.phase
    case InsertUser(a) =>
      if CreateUser(db, newId, NewAccount(l.id, a)).UniqueViolation? {
        ClashMeansHeld(db, l.id, a, newId);
      }
    case Recheck(a) =>
      if UserByEmail(db, Email(l.id)).None? {
        assert Held(db, Candidate(BaseName(l.id), a));
        assert HeldBefore(db, BaseName(l.id), a + 1);
      }
    case _ =>
  }

  predicate SearchesOk(s: System) {
    forall c <- s.logins :: SearchOk(s.db, s.logins[c])
  }

  /** An insert is drawn an id that is not in use. */
  predicate DrawsFreshId(s: System, op: Op) {
    op.Query? && op.call in s.logins && s.logins[op.call].phase.InsertUser? ==> op.newId !in s.db.users
  }

  /** Every account a login inserts is drawn a new id. */
  predicate FreshIds(s: System, cfg: Config, ops: seq<Op>) {
    ops == [] ||
    (FreshIds(s, cfg, ops[..|ops| - 1]) && DrawsFreshId(Run(s, cfg, ops[..|ops| - 1]), ops[|ops| - 1]))
  }

  lemma ApplyNamesGrow(s: System, cfg: Config, op: Op)
    ensures NamesGrow(s.db, Apply(s, cfg, op).db)
  {
    hide Consistent, ExternalLogin.Step, Lower;
    ApplyGrows(s, cfg, op);
    if op.Query? {
      if op.call in s.logins {
        StepNamesGrow(cfg, s.db, s.logins[op.call], op.newId);
      }
    } else {
      var db' := Apply(s, cfg, op).db;
      forall id <- s.db.users
        ensures Lower(s.db.users[id].username) in NamesHeld(db')
      {
        assert id in db'.users && db'.users[id].username == s.db.users[id].username;
      }
    }
  }

  lemma ApplySearches(s: System, cfg: Config, op: Op)
    requires SearchesOk(s) && DrawsFreshId(s, op)
    ensures SearchesOk(Apply(s, cfg, op))
  {
    hide Consistent, ExternalLogin.Step, NamesGrow;
    var s' := Apply(s, cfg, op);
    ApplyNamesGrow(s, cfg, op);
    forall c <- s'.logins
      ensures SearchOk(s'.db, s'.logins[c])
    {
      if op.Query? && op.call == c {
        StepSearches(cfg, s.db, s.logins[c], op.newId);
      } else if c in s.logins && s'.logins[c] == s.logins[c] {
        SearchStaysOk(s.db, s'.db, s.logins[c]);
      }
    }
  }

  lemma {:induction false} EverySearchIsOk(db: Db, cfg: Config, ops: seq<Op>)
    requires FreshIds(Init(db), cfg, ops)
    ensures SearchesOk(Run(Init(db), cfg, ops))
  {
    hide Apply, SearchOk;
    if ops != [] {
      EverySearchIsOk(db, cfg, ops[..|ops| - 1]);
      ApplySearches(Run(Init(db), cfg, ops[..|ops| - 1]), cfg, ops[|ops| - 1]);
    }
  }

  /** Interference does not change it: however many logins and registrations race, a login is turned away for
      want of a username only when every candidate, and so at least seven different usernames, is held. */
  lemma RefusedNameMeansSevenHeldInEveryRun(db: Db, cfg: Config, ops: seq<Op>, c: CallId)
    requires FreshIds(Init(db), cfg, ops) && c in Run(Init(db), cfg, ops).logins
    requires Run(Init(db), cfg, ops).logins[c].phase == Done(Rejected(NoUsername))
    ensures var s := Run(Init(db), cfg, ops);
            Tried(BaseName(s.logins[c].id)) <= NamesHeld(s.db) && |NamesHeld(s.db)| >= 7
  {
    hide Consistent, Run, Candidate, BaseName, NamesHeld, FreshIds;
    EverySearchIsOk(db, cfg, ops);
    var s := Run(Init(db), cfg, ops);
    var base := BaseName(s.logins[c].id);
    assert SearchOk(s.db, s.logins[c]);
    forall name <- Tried(base)
      ensures name in NamesHeld(s.db)
    {
      var a: nat :| a < PROVISION_ATTEMPTS && name == Lower(Candidate(base, a));
      assert Held(s.db, Candidate(base, a));
    }
    BaseNameIsLegal(s.logins[c].id);
    AtLeastSevenTried(base);
    SubsetSize(Tried(base), NamesHeld(s.db));
  }

  // ---- two logins with different emails ----------------------------------------------------

  /** An identity that is not bound passes every refusal and belongs to an account that is not banned. */
  predicate Matches(cfg: Config, db: Db, provider: string, id: Identity, user: UserId) {
    && ClaimGate(provider, id).None? && EmailGate(cfg, id).None? && Key(provider, Subject(id)) !in db.bindings
    && UserByEmail(db, Email(id)).Some? && UserByEmail(db, Email(id)).value == user && !db.users[user].banned
  }

  /** Two queries bring such a login to its binding. */
  lemma ReachesBind(s: System, cfg: Config, c: CallId, user: UserId)
    requires c in s.logins && s.logins[c].phase.Start?
    requires Matches(cfg, s.db, s.logins[c].provider, s.logins[c].id, user)
    ensures Apply(Apply(s, cfg, Query(c, 0)), cfg, Query(c, 0))
         == s.(logins := s.logins[c := s.logins[c].(phase := Bind(user, ByEmail))])
  {
    hide Consistent, ClaimGate, EmailGate, UserByEmail, Subject, Email;
    var l := s.logins[c];
    var s1 := Apply(s, cfg, Query(c, 0));
    assert s1 == s.(logins := s.logins[c := l.(phase := FindEmail)]);
    assert Apply(s1, cfg, Query(c, 0)).logins == s.logins[c := l.(phase := Bind(user, ByEmail))];
  }

  lemma RunTwo(s: System, cfg: Config, a: Op, b: Op, rest: seq<Op>)
    ensures Run(s, cfg, [a, b] + rest) == Run(Apply(Apply(s, cfg, a), cfg, b), cfg, rest)
  {
    hide Apply, Run;
    assert [a, b] + rest == [a] + ([b] + rest);
    RunFromFirst(s, cfg, a, [b] + rest);
    RunFromFirst(Apply(s, cfg, a), cfg, b, rest);
  }

  /** Both logins look their account up before either binds. */
  function Race(provider: string, id1: Identity, id2: Identity): seq<Op> {
    [Begin(0, provider, id1), Begin(1, provider, id2)]
    + ([Query(0, 0), Query(0, 0)] + ([Query(1, 0), Query(1, 0)] + []))
  }

  lemma RaceReachesBind(db: Db, cfg: Config, provider: string, id1: Identity, id2: Identity, u: UserId, v: UserId)
    requires Matches(cfg, db, provider, id1, u) && Matches(cfg, db, provider, id2, v)
    ensures Run(Init(db), cfg, Race(provider, id1, id2))
         == Init(db).(logins := map[0 := Login(provider, id1, Bind(u, ByEmail)),
                                    1 := Login(provider, id2, Bind(v, ByEmail))])
  {
    hide Consistent, Matches, Run, ExternalLogin.Step;
    var s := Init(db);
    var s2 := Apply(Apply(s, cfg, Begin(0, provider, id1)), cfg, Begin(1, provider, id2));
    RunTwo(s, cfg, Begin(0, provider, id1), Begin(1, provider, id2),
           [Query(0, 0), Query(0, 0)] + ([Query(1, 0), Query(1, 0)] + []));
    assert s2 == s.(logins := map[0 := Login(provider, id1, Start), 1 := Login(provider, id2, Start)]);
    ReachesBind(s2, cfg, 0, u);
    RunTwo(s2, cfg, Query(0, 0), Query(0, 0), [Query(1, 0), Query(1, 0)] + []);
    var s4 := s2.(logins := s2.logins[0 := Login(provider, id1, Bind(u, ByEmail))]);
    ReachesBind(s4, cfg, 1, v);
    RunTwo(s4, cfg, Query(1, 0), Query(1, 0), []);
    RunOfNothing(Apply(Apply(s4, cfg, Query(1, 0)), cfg, Query(1, 0)), cfg);
  }

  lemma RunOfNothing(s: System, cfg: Config)
    ensures Run(s, cfg, []) == s
  {
  }

  /** From any tables with two accounts that are not banned and a key that is not bound, two logins with that
      key and the two emails race to their bindings, and then both are accepted, each as its own user, while
      the stored binding names only the first. */
  lemma DivergenceIsReached(db: Db, cfg: Config, provider: string, id1: Identity, id2: Identity, u: UserId, v: UserId)
    requires Matches(cfg, db, provider, id1, u) && Matches(cfg, db, provider, id2, v) && u != v
        && Subject(id1) == Subject(id2)
    ensures var s := Run(Init(db), cfg, Race(provider, id1, id2) + [Query(0, 0)] + [Query(1, 0)]);
            var k := Key(provider, Subject(id1));
            && s.logins.Keys == {0, 1}
            && s.logins[0].phase == Done(Accepted(u, ByEmail)) && s.logins[1].phase == Done(Accepted(v, ByEmail))
            && k in s.db.bindings && s.db.bindings[k] == u
  {
    hide Run, Race, Consistent;
    var race := Race(provider, id1, id2);
    RaceReachesBind(db, cfg, provider, id1, id2, u, v);
    EveryRunIsOk(db, cfg, race);
    var s := Run(Init(db), cfg, race);
    RunSnoc(Init(db), cfg, race, Query(0, 0));
    RunSnoc(Init(db), cfg, race + [Query(0, 0)], Query(1, 0));
    DifferentEmailsDiverge(s, cfg, 0, 1, u, v);
    FirstBinds(s, cfg, u);
  }

  lemma FirstBinds(s: System, cfg: Config, u: UserId)
    requires s.logins.Keys == {0, 1} && s.logins[0].phase == Bind(u, ByEmail) && KeyOf(s.logins[0]) !in s.db.bindings
    requires u in s.db.users
    ensures var s' := Apply(Apply(s, cfg, Query(0, 0)), cfg, Query(1, 0));
            s'.logins.Keys == {0, 1} && s'.logins[0].phase == Done(Accepted(u, ByEmail))
  {
    hide Consistent;
    var s1 := Apply(s, cfg, Query(0, 0));
    assert s1.logins.Keys == {0, 1} && s1.logins[0].phase == Done(Accepted(u, ByEmail));
  }

  lemma RunSnoc(s: System, cfg: Config, ops: seq<Op>, op: Op)
    ensures Run(s, cfg, ops + [op]) == Apply(Run(s, cfg, ops), cfg, op)
  {
    assert (ops + [op])[..|ops|] == ops;
  }

  const ANN := User("ann", "a@x", NO_PASSWORD_HASH, Participant, false, false)
  const BOB := User("bob", "b@x", NO_PASSWORD_HASH, Participant, false, false)

  function Claiming(email: string): Identity {
    Identity("s", email, "", true, map[])
  }

  lemma FoundByEmail(cfg: Config, db: Db, user: UserId, email: string)
    requires cfg.policy != Off && cfg.mailOk(email) && db.bindings == map[] && HasEmail(db, user, email)
        && !db.users[user].banned
    requires email != "" && Lower(TrimSpace(email)) == email && forall c <- email :: c !in " <>"
    ensures Matches(cfg, db, "p", Claiming(email), user)
  {
    hide Consistent, TrimLeft, TrimRight, Lower;
    assert TrimSpace("p") == "p" && TrimSpace("s") == "s" && Utf8Length("s") == 1 by { OneLetter(); }
    var id := Claiming(email);
    assert Email(id) == email && Subject(id) == "s";
    assert HasEmail(db, user, Email(id));
  }

  lemma OneLetter()
    ensures TrimSpace("p") == "p" && TrimSpace("s") == "s" && Utf8Length("s") == 1
  {
  }

  /** Such tables and such logins exist. */
  lemma ADivergence(cfg: Config)
    requires cfg.policy != Off && cfg.mailOk("a@x") && cfg.mailOk("b@x")
    ensures Consistent(Tables(map[0 := ANN, 1 := BOB], map[]))
    ensures var db: Db := Tables(map[0 := ANN, 1 := BOB], map[]);
            var s := Run(Init(db), cfg, Race("p", Claiming("a@x"), Claiming("b@x")) + [Query(0, 0)] + [Query(1, 0)]);
            && s.logins.Keys == {0, 1}
            && s.logins[0].phase == Done(Accepted(0, ByEmail)) && s.logins[1].phase == Done(Accepted(1, ByEmail))
            && Key("p", "s") in s.db.bindings && s.db.bindings[Key("p", "s")] == 0
  {
    hide Run, Race, Matches;
    SmallTables();
    SmallEmails();
    var db: Db := Tables(map[0 := ANN, 1 := BOB], map[]);
    FoundByEmail(cfg, db, 0, "a@x");
    FoundByEmail(cfg, db, 1, "b@x");
    assert Subject(Claiming("a@x")) == "s" by { OneLetter(); }
    DivergenceIsReached(db, cfg, "p", Claiming("a@x"), Claiming("b@x"), 0, 1);
  }

  lemma SmallTables()
    ensures Consistent(Tables(map[0 := ANN, 1 := BOB], map[]))
  {
    assert Lower("ann")[0] == 'a' && Lower("bob")[0] == 'b' && Lower("a@x")[0] == 'a' && Lower("b@x")[0] == 'b';
  }

  lemma SmallEmails()
    ensures Lower(TrimSpace("a@x")) == "a@x" && Lower(TrimSpace("b@x")) == "b@x"
  {
    assert TrimSpace("a@x") == "a@x" && TrimSpace("b@x") == "b@x";
  }
}
