/**
 Any number of external logins in flight at once, their queries in any order, among ordinary registrations,
 bans and role changes by an administrator, and queries that fail for reasons of their own.
 */
module ExternalRuns {
  import opened Text
  import opened ExternalTables
  import opened ExternalLogin

  type CallId = nat

  /** The tables and the logins, with the history the properties speak about: which login recorded each
      binding, which logins changed a table, and which login created each account. */
  datatype System = System(
    db: Db,
    logins: map<CallId, Login>,
    writer: map<Key, CallId>,
    wrote: set<CallId>,
    createdBy: map<UserId, CallId>)

  datatype Op =
    | Begin(call: CallId, provider: string, id: Identity)
    | Query(call: CallId, newId: UserId)
    | Fault(call: CallId)
    | Register(newId: UserId, username: string, email: string, passwordHash: string)
    | SetBanned(user: UserId, banned: bool)
    | SetRole(user: UserId, role: Role)

  function Init(db: Db): System {
    System(db, map[], map[], {}, map[])
  }

  function Asked(s: System, cfg: Config, c: CallId, newId: UserId): System
    requires c in s.logins
  {
    var l := s.logins[c];
    var (db', phase) := Step(cfg, s.db, l, newId);
    System(db',
           s.logins[c := l.(phase := phase)],
           if KeyOf(l) in db'.bindings && KeyOf(l) !in s.db.bindings then s.writer[KeyOf(l) := c] else s.writer,
           if db' != s.db then s.wrote + {c} else s.wrote,
           if newId in db'.users && newId !in s.db.users then s.createdBy[newId := c] else s.createdBy)
  }

  function Edited(db: Db, user: UserId, edit: User): Db
    requires user in db.users && edit.username == db.users[user].username && edit.email == db.users[user].email
  {
    var users := db.users[user := edit];
    assert forall a, b | a in users && b in users && a != b :: !Clash(users[a], users[b]) by {
      forall a, b | a in users && b in users && a != b
        ensures !Clash(users[a], users[b])
      {
        assert !Clash(db.users[a], db.users[b]);
      }
    }
    db.(users := users)
  }

  function Apply(s: System, cfg: Config, op: Op): System {
    match op
    case Begin(c, provider, id) =>
      if c in s.logins then s else s.(logins := s.logins[c := Login(provider, id, Start)])
    case Query(c, newId) =>
      if c in s.logins then Asked(s, cfg, c, newId) else s
    case Fault(c) =>
      if c in s.logins && !s.logins[c].phase.Done?
      then s.(logins := s.logins[c := s.logins[c].(phase := Done(Failed))])
      else s
    case Register(newId, username, email, hash) =>
      var r := CreateUser(s.db, newId, User(username, email, hash, Participant, false, false));
      if r.Inserted? then s.(db := r.db) else s
    case SetBanned(user, banned) =>
      if user in s.db.users then s.(db := Edited(s.db, user, s.db.users[user].(banned := banned))) else s
    case SetRole(user, role) =>
      if user in s.db.users then s.(db := Edited(s.db, user, s.db.users[user].(role := role))) else s
  }

  function Run(s: System, cfg: Config, ops: seq<Op>): System {
    if ops == [] then s else Apply(Run(s, cfg, ops[..|ops| - 1]), cfg, ops[|ops| - 1])
  }

  // ---- the invariant -----------------------------------------------------------------------

  /** The binding was recorded by a login for that key whose email the provider had verified and is the
      email of the user it is bound to. */
  predicate BindingOk(s: System, k: Key)
    requires k in s.writer
  {
    && k in s.db.bindings && s.writer[k] in s.logins
    && var l := s.logins[s.writer[k]];
       KeyOf(l) == k && l.id.emailVerified && HasEmail(s.db, s.db.bindings[k], Email(l.id))
  }

  predicate BoundBy(s: System, k: Key, user: UserId) {
    k in s.db.bindings && s.db.bindings[k] == user
  }

  /** What holds of a login in each of its phases. A login that found its key unbound knows that whatever
      binds the key later is a login too. */
  predicate LoginOk(s: System, c: CallId, l: Login) {
    && (l.phase.FindEmail? || l.phase.InsertUser? || l.phase.Recheck? || l.phase.Bind? ==>
          l.id.emailVerified && (KeyOf(l) in s.db.bindings ==> KeyOf(l) in s.writer))
    && (c in s.wrote ==> l.phase.Bind? || (l.phase.Done? && !l.phase.outcome.Rejected?))
    && match l.phase
       case LoadBound(user) => BoundBy(s, KeyOf(l), user)
       case Bind(user, route) => route != ByBinding && HasEmail(s.db, user, Email(l.id))
       case Done(Accepted(user, ByBinding)) => BoundBy(s, KeyOf(l), user)
       case Done(Accepted(user, _)) =>
         l.id.emailVerified && HasEmail(s.db, user, Email(l.id)) && KeyOf(l) in s.db.bindings && KeyOf(l) in s.writer
       case _ => true
  }

  predicate CreatedOk(s: System, user: UserId)
    requires user in s.createdBy
  {
    s.createdBy[user] in s.logins && HasEmail(s.db, user, Email(s.logins[s.createdBy[user]].id))
  }

  predicate Inv(s: System) {
    && (forall k <- s.writer :: BindingOk(s, k))
    && (forall c <- s.logins :: LoginOk(s, c, s.logins[c]))
    && (forall c <- s.wrote :: c in s.logins)
    && (forall user <- s.createdBy :: CreatedOk(s, user))
  }

  /** What no step undoes: users keep their emails and bindings keep their users. */
  predicate Grows(db: Db, db': Db) {
    && (forall user <- db.users :: user in db'.users && db'.users[user].email == db.users[user].email)
    && (forall k <- db.bindings :: k in db'.bindings && db'.bindings[k] == db.bindings[k])
  }

  lemma StepGrows(cfg: Config, db: Db, l: Login, newId: UserId)
    ensures Grows(db, Step(cfg, db, l, newId).0)
    ensures Admins(Step(cfg, db, l, newId).0) == Admins(db)
  {
    hide Consistent;
  }

  lemma ApplyGrows(s: System, cfg: Config, op: Op)
    ensures Grows(s.db, Apply(s, cfg, op).db)
    ensures !op.SetRole? ==> Admins(Apply(s, cfg, op).db) == Admins(s.db)
  {
    hide Consistent, Step;
    match op
    case Query(c, newId) => if c in s.logins { StepGrows(cfg, s.db, s.logins[c], newId); }
    case _ =>
  }

  /** A login that is not the one stepping stays in order. */
  lemma OthersStayOk(s: System, s': System, d: CallId)
    requires d in s.logins && d in s'.logins && s'.logins[d] == s.logins[d] && LoginOk(s, d, s.logins[d])
    requires Grows(s.db, s'.db) && (d in s'.wrote ==> d in s.wrote)
    requires forall k <- s.writer :: k in s'.writer
    requires forall k <- s'.db.bindings :: k in s.db.bindings || k in s'.writer
    ensures LoginOk(s', d, s'.logins[d])
  {
    hide Consistent;
  }

  lemma NewBinding(cfg: Config, db: Db, l: Login, newId: UserId, k: Key)
    requires k in Step(cfg, db, l, newId).0.bindings && k !in db.bindings
    ensures l.phase.Bind? && k == KeyOf(l) && Step(cfg, db, l, newId).0.bindings[k] == l.phase.user
  {
    hide Consistent;
  }

  lemma NewUser(cfg: Config, db: Db, l: Login, newId: UserId, user: UserId)
    requires user in Step(cfg, db, l, newId).0.users && user !in db.users
    ensures l.phase.InsertUser? && user == newId
        && Step(cfg, db, l, newId).0.users[user] == NewAccount(l.id, l.phase.attempt)
  {
    hide Consistent, NewAccount;
  }

  lemma EmailIsFolded(id: Identity)
    ensures Lower(Email(id)) == Email(id)
  {
    LowerIdempotent(TrimSpace(id.email));
  }

  lemma InsertStaysOk(s: System, cfg: Config, c: CallId, newId: UserId)
    requires c in s.logins && s.logins[c].phase.InsertUser? && LoginOk(s, c, s.logins[c])
    ensures LoginOk(Asked(s, cfg, c, newId), c, Asked(s, cfg, c, newId).logins[c])
  {
    hide Consistent, UserByEmail;
  }

  lemma BindStaysOk(s: System, cfg: Config, c: CallId, newId: UserId)
    requires c in s.logins && s.logins[c].phase.Bind? && LoginOk(s, c, s.logins[c])
    ensures LoginOk(Asked(s, cfg, c, newId), c, Asked(s, cfg, c, newId).logins[c])
  {
    hide Consistent, UserByEmail, NewAccount;
  }

  lemma AskedStaysOk(s: System, cfg: Config, c: CallId, newId: UserId)
    requires c in s.logins && LoginOk(s, c, s.logins[c])
    ensures LoginOk(Asked(s, cfg, c, newId), c, Asked(s, cfg, c, newId).logins[c])
  {
    hide Consistent, NewAccount;
    match s.logins[c].phase
    case InsertUser(attempt) => InsertStaysOk(s, cfg, c, newId);
    case Bind(user, route) => BindStaysOk(s, cfg, c, newId);
    case _ =>
  }

  lemma HistoryStaysOk(s: System, cfg: Config, c: CallId, newId: UserId)
    requires Inv(s) && c in s.logins
    ensures var s' := Asked(s, cfg, c, newId);
            && (forall k <- s'.writer :: BindingOk(s', k))
            && (forall user <- s'.createdBy :: CreatedOk(s', user))
  {
    hide Consistent, Step, Email, Lower;
    var l, s' := s.logins[c], Asked(s, cfg, c, newId);
    StepGrows(cfg, s.db, l, newId);
    EmailIsFolded(l.id);
    assert LoginOk(s, c, l);
    forall k <- s'.writer
      ensures BindingOk(s', k)
    {
      if k in s.writer {
        assert BindingOk(s, k);
      }
      if k !in s.db.bindings {
        NewBinding(cfg, s.db, l, newId, k);
      }
    }
    forall user <- s'.createdBy
      ensures CreatedOk(s', user)
    {
      if user in s.createdBy {
        assert CreatedOk(s, user);
      }
      if user !in s.db.users {
        NewUser(cfg, s.db, l, newId, user);
      }
    }
  }

  lemma AskedKeepsInv(s: System, cfg: Config, c: CallId, newId: UserId)
    requires Inv(s) && c in s.logins
    ensures Inv(Asked(s, cfg, c, newId))
  {
    hide Consistent, Step, LoginOk, BindingOk, CreatedOk, KeyOf;
    var s' := Asked(s, cfg, c, newId);
    StepGrows(cfg, s.db, s.logins[c], newId);
    AskedStaysOk(s, cfg, c, newId);
    HistoryStaysOk(s, cfg, c, newId);
    forall d <- s'.logins
      ensures LoginOk(s', d, s'.logins[d])
    {
      if d != c {
        NewBindingHasWriter(s, cfg, c, newId);
        OthersStayOk(s, s', d);
      }
    }
  }

  lemma NewBindingHasWriter(s: System, cfg: Config, c: CallId, newId: UserId)
    requires c in s.logins
    ensures forall k <- Asked(s, cfg, c, newId).db.bindings :: k in s.db.bindings || k in Asked(s, cfg, c, newId).writer
    ensures forall k <- s.writer :: k in Asked(s, cfg, c, newId).writer
  {
    hide Consistent;
  }

  lemma BindingStaysOk(s: System, s': System, k: Key)
    requires k in s.writer && BindingOk(s, k) && k in s'.writer && s'.writer[k] == s.writer[k]
    requires Grows(s.db, s'.db) && s.writer[k] in s'.logins && SameLogin(s.logins[s.writer[k]], s'.logins[s.writer[k]])
    ensures BindingOk(s', k)
  {
    hide Consistent;
  }

  lemma CreatedStaysOk(s: System, s': System, user: UserId)
    requires user in s.createdBy && CreatedOk(s, user) && user in s'.createdBy
        && s'.createdBy[user] == s.createdBy[user]
    requires Grows(s.db, s'.db) && s.createdBy[user] in s'.logins
    requires SameLogin(s.logins[s.createdBy[user]], s'.logins[s.createdBy[user]])
    ensures CreatedOk(s', user)
  {
    hide Consistent;
  }

  /** The same login, in whatever phase. */
  predicate SameLogin(l: Login, l': Login) {
    l'.provider == l.provider && l'.id == l.id
  }

  /** A step that records no binding and gives at most one login a new state, one that is in order. */
  lemma QuietStepKeepsInv(s: System, s': System, c: CallId)
    requires Inv(s) && Grows(s.db, s'.db) && s'.db.bindings == s.db.bindings
    requires s'.writer == s.writer && s'.wrote == s.wrote && s'.createdBy == s.createdBy
    requires s'.logins == s.logins
          || (c in s'.logins && s'.logins == s.logins[c := s'.logins[c]] && LoginOk(s', c, s'.logins[c])
              && (c in s.logins ==> SameLogin(s.logins[c], s'.logins[c])))
    ensures Inv(s')
  {
    hide Consistent, LoginOk, Grows, HasEmail, KeyOf, Email;
    assert forall d <- s.logins :: d in s'.logins && SameLogin(s.logins[d], s'.logins[d]);
    forall d <- s'.logins
      ensures LoginOk(s', d, s'.logins[d])
    {
      if s'.logins == s.logins || d != c {
        OthersStayOk(s, s', d);
      }
    }
    forall k <- s'.writer
      ensures BindingOk(s', k)
    {
      assert BindingOk(s, k);
      BindingStaysOk(s, s', k);
    }
    forall user <- s'.createdBy
      ensures CreatedOk(s', user)
    {
      assert CreatedOk(s, user);
      CreatedStaysOk(s, s', user);
    }
  }

  lemma OtherStepsKeepInv(s: System, cfg: Config, op: Op)
    requires Inv(s) && !op.Query?
    ensures Inv(Apply(s, cfg, op))
  {
    hide Consistent, Step, BindingOk, CreatedOk, OnStart;
    ApplyGrows(s, cfg, op);
    QuietStepKeepsInv(s, Apply(s, cfg, op), if op.Begin? || op.Fault? then op.call else 0);
  }

  /** Whatever the interleaving: every binding a login recorded was recorded by one whose email the provider
      had verified and is the bound user's email, and every login is in order. */
  lemma {:induction false} EveryRunIsOk(db: Db, cfg: Config, ops: seq<Op>)
    ensures Inv(Run(Init(db), cfg, ops))
  {
    hide Apply, Inv;
    if ops == [] {
      InitIsOk(db);
    } else {
      var s, op := Run(Init(db), cfg, ops[..|ops| - 1]), ops[|ops| - 1];
      EveryRunIsOk(db, cfg, ops[..|ops| - 1]);
      ApplyKeepsInv(s, cfg, op);
    }
  }

  lemma InitIsOk(db: Db)
    ensures Inv(Init(db))
  {
  }

  lemma ApplyKeepsInv(s: System, cfg: Config, op: Op)
    requires Inv(s)
    ensures Inv(Apply(s, cfg, op))
  {
    hide Inv, Asked;
    if op.Query? {
      if op.call in s.logins {
        AskedKeepsInv(s, cfg, op.call, op.newId);
      }
    } else {
      OtherStepsKeepInv(s, cfg, op);
    }
  }

  // ---- the theorems ------------------------------------------------------------------------

  /** No binding is ever overwritten or dropped, and no user changes email. */
  lemma {:induction false} RunGrows(s: System, cfg: Config, ops: seq<Op>)
    ensures Grows(s.db, Run(s, cfg, ops).db)
  {
    hide Consistent, Apply;
    if ops != [] {
      RunGrows(s, cfg, ops[..|ops| - 1]);
      ApplyGrows(Run(s, cfg, ops[..|ops| - 1]), cfg, ops[|ops| - 1]);
    }
  }

  /** Logins make nobody an administrator: only an administrator's role change does. */
  lemma {:induction false} AdminsComeFromRoleChanges(db: Db, cfg: Config, ops: seq<Op>)
    requires forall op <- ops :: !op.SetRole?
    ensures Admins(Run(Init(db), cfg, ops).db) == Admins(db)
  {
    hide Consistent, Apply, Admins;
    if ops != [] {
      AdminsComeFromRoleChanges(db, cfg, ops[..|ops| - 1]);
      ApplyGrows(Run(Init(db), cfg, ops[..|ops| - 1]), cfg, ops[|ops| - 1]);
    }
  }

  /** A binding the run added was recorded by a login with that key, whose email the provider had verified
      and is, trimmed and lower-cased, the email of the user it is bound to. */
  lemma {:induction false} BindingsAreVerified(db: Db, cfg: Config, ops: seq<Op>, k: Key)
    requires k in Run(Init(db), cfg, ops).db.bindings && k !in db.bindings
    ensures k in Run(Init(db), cfg, ops).writer && BindingOk(Run(Init(db), cfg, ops), k)
  {
    hide Consistent, Step, BindingOk;
    EveryRunIsOk(db, cfg, ops);
    if ops != [] {
      var s, op := Run(Init(db), cfg, ops[..|ops| - 1]), ops[|ops| - 1];
      if k in s.db.bindings {
        BindingsAreVerified(db, cfg, ops[..|ops| - 1], k);
      } else if op.Query? {
        NewBindingHasWriter(s, cfg, op.call, op.newId);
      }
    }
  }

  /** A login that was refused changed neither table, at any of its queries. */
  lemma RefusedWroteNothing(db: Db, cfg: Config, ops: seq<Op>, c: CallId)
    requires var s := Run(Init(db), cfg, ops);
             c in s.logins && s.logins[c].phase.Done? && s.logins[c].phase.outcome.Rejected?
    ensures c !in Run(Init(db), cfg, ops).wrote
  {
    EveryRunIsOk(db, cfg, ops);
    var s := Run(Init(db), cfg, ops);
    assert LoginOk(s, c, s.logins[c]);
  }

  predicate AcceptedIn(s: System, c: CallId) {
    c in s.logins && s.logins[c].phase.Done? && s.logins[c].phase.outcome.Accepted?
  }

  lemma SameEmailSameUser(db: Db, a: UserId, b: UserId, email: string)
    requires HasEmail(db, a, email) && HasEmail(db, b, email)
    ensures a == b
  {
    assert a != b ==> Clash(db.users[a], db.users[b]);
  }

  /** An accepted login always finds its key bound, but the user it returns is the bound one exactly when it
      came through the binding or asserted the email of the login that recorded the binding. */
  lemma ReturnsTheBoundUserExactly(db: Db, cfg: Config, ops: seq<Op>, c: CallId)
    requires AcceptedIn(Run(Init(db), cfg, ops), c)
    ensures var s := Run(Init(db), cfg, ops);
            var l := s.logins[c];
            var Accepted(user, route) := l.phase.outcome;
            && KeyOf(l) in s.db.bindings
            && (route == ByBinding ==> s.db.bindings[KeyOf(l)] == user)
            && (route != ByBinding ==>
                  && KeyOf(l) in s.writer && s.writer[KeyOf(l)] in s.logins
                  && (s.db.bindings[KeyOf(l)] == user <==> Email(s.logins[s.writer[KeyOf(l)]].id) == Email(l.id)))
  {
    hide Consistent, Step;
    EveryRunIsOk(db, cfg, ops);
    var s := Run(Init(db), cfg, ops);
    var l := s.logins[c];
    assert LoginOk(s, c, l);
    if l.phase.outcome.route != ByBinding {
      assert BindingOk(s, KeyOf(l));
      var w := s.logins[s.writer[KeyOf(l)]];
      EmailIsFolded(l.id);
      EmailIsFolded(w.id);
      if Email(w.id) == Email(l.id) {
        SameEmailSameUser(s.db, s.db.bindings[KeyOf(l)], l.phase.outcome.user, Email(l.id));
      }
    }
  }

  predicate AlwaysAsserts(ops: seq<Op>, k: Key, email: string) {
    forall op <- ops :: op.Begin? && Key(op.provider, Subject(op.id)) == k ==> Email(op.id) == email
  }

  lemma IdentityIsFixed(s: System, cfg: Config, op: Op, c: CallId)
    requires c in Apply(s, cfg, op).logins
    ensures var l := Apply(s, cfg, op).logins[c];
            if c in s.logins then l.provider == s.logins[c].provider && l.id == s.logins[c].id
            else op == Begin(c, l.provider, l.id)
  {
    hide Consistent, Step;
  }

  predicate AllAssert(s: System, k: Key, email: string) {
    forall c <- s.logins :: KeyOf(s.logins[c]) == k ==> Email(s.logins[c].id) == email
  }

  lemma {:induction false} LoginsAssert(db: Db, cfg: Config, ops: seq<Op>, k: Key, email: string)
    requires AlwaysAsserts(ops, k, email)
    ensures AllAssert(Run(Init(db), cfg, ops), k, email)
  {
    hide Consistent, Apply, Email, Subject;
    if ops != [] {
      var s, op := Run(Init(db), cfg, ops[..|ops| - 1]), ops[|ops| - 1];
      LoginsAssert(db, cfg, ops[..|ops| - 1], k, email);
      assert op in ops;
      forall c <- Apply(s, cfg, op).logins
        ensures KeyOf(Apply(s, cfg, op).logins[c]) == k ==> Email(Apply(s, cfg, op).logins[c].id) == email
      {
        IdentityIsFixed(s, cfg, op, c);
        if c in s.logins {
          assert KeyOf(s.logins[c]) == KeyOf(Apply(s, cfg, op).logins[c]);
        } else {
          assert Key(op.provider, Subject(op.id)) == KeyOf(Apply(s, cfg, op).logins[c]);
        }
      }
    }
  }

  /** Concurrent logins converge: when every login with a given provider and subject asserts the same email,
      all that are accepted return one user, the one the stored binding names. */
  lemma SameIdentityConverges(db: Db, cfg: Config, ops: seq<Op>, k: Key, email: string, c: CallId)
    requires AlwaysAsserts(ops, k, email)
    requires AcceptedIn(Run(Init(db), cfg, ops), c) && KeyOf(Run(Init(db), cfg, ops).logins[c]) == k
    ensures var s := Run(Init(db), cfg, ops);
            k in s.db.bindings && s.logins[c].phase.outcome.user == s.db.bindings[k]
  {
    hide Consistent, Apply;
    LoginsAssert(db, cfg, ops, k, email);
    ReturnsTheBoundUserExactly(db, cfg, ops, c);
    EveryRunIsOk(db, cfg, ops);
    var s := Run(Init(db), cfg, ops);
    if k in s.writer {
      assert BindingOk(s, k);
    }
  }

  /** However many logins race, at most one account is created for an email. */
  lemma AtMostOneAccountPerEmail(db: Db, cfg: Config, ops: seq<Op>, a: UserId, b: UserId)
    requires var s := Run(Init(db), cfg, ops);
             && a in s.createdBy && b in s.createdBy && s.createdBy[a] in s.logins && s.createdBy[b] in s.logins
             && Email(s.logins[s.createdBy[a]].id) == Email(s.logins[s.createdBy[b]].id)
    ensures a == b
  {
    hide Consistent, Apply;
    EveryRunIsOk(db, cfg, ops);
    var s := Run(Init(db), cfg, ops);
    assert CreatedOk(s, a) && CreatedOk(s, b);
    SameEmailSameUser(s.db, a, b, Email(s.logins[s.createdBy[a]].id));
  }

  /** With different emails they do not converge: of two logins with the same key about to bind different
      users, the second is accepted as its own user although the stored binding names the other. */
  lemma DifferentEmailsDiverge(s: System, cfg: Config, c: CallId, d: CallId, u: UserId, v: UserId)
    requires Inv(s) && c in s.logins && d in s.logins && KeyOf(s.logins[c]) == KeyOf(s.logins[d])
    requires KeyOf(s.logins[d]) !in s.db.bindings
    requires s.logins[c].phase == Bind(u, ByEmail) && s.logins[d].phase == Bind(v, ByEmail) && u != v
    ensures Email(s.logins[c].id) != Email(s.logins[d].id)
    ensures var s' := Apply(Apply(s, cfg, Query(c, 0)), cfg, Query(d, 0));
            && d in s'.logins && s'.logins[d].phase == Done(Accepted(v, ByEmail))
            && KeyOf(s.logins[d]) in s'.db.bindings && s'.db.bindings[KeyOf(s.logins[d])] == u
  {
    hide Consistent;
    assert LoginOk(s, c, s.logins[c]) && LoginOk(s, d, s.logins[d]);
    if Email(s.logins[c].id) == Email(s.logins[d].id) {
      SameEmailSameUser(s.db, u, v, Email(s.logins[c].id));
    }
    var s1 := Apply(s, cfg, Query(c, 0));
    assert s1 == Asked(s, cfg, c, 0) && s1.logins[d] == s.logins[d];
    assert KeyOf(s.logins[c]) in s1.db.bindings;
  }

  // ---- a login nobody disturbs -------------------------------------------------------------

  lemma {:induction false} RunFromFirst(s: System, cfg: Config, op: Op, rest: seq<Op>)
    ensures Run(s, cfg, [op] + rest) == Run(Apply(s, cfg, op), cfg, rest)
  {
    hide Apply;
    if rest == [] {
      assert [op] + rest == [op] && [op][..0] == [];
    } else {
      var init := rest[..|rest| - 1];
      assert ([op] + rest)[..|rest|] == [op] + init;
      RunFromFirst(s, cfg, op, init);
    }
  }

  predicate QueriesOf(ops: seq<Op>, c: CallId) {
    forall op <- ops :: op.Query? && op.call == c
  }

  /** Its queries, one after another, lead to the tables and the outcome of a single call of Resolve. */
  lemma {:induction false} UndisturbedLoginIsResolve(s: System, cfg: Config, c: CallId, ids: nat -> UserId)
    returns (ops: seq<Op>)
    requires c in s.logins
    ensures QueriesOf(ops, c)
    ensures var s' := Run(s, cfg, ops);
            var (db', outcome) := Alone(cfg, s.db, s.logins[c], ids);
            s'.db == db' && c in s'.logins && s'.logins[c] == s.logins[c].(phase := Done(outcome))
    decreases Rank(s.logins[c].phase)
  {
    hide Alone, Consistent, Step, Rank;
    var l := s.logins[c];
    if l.phase.Done? {
      AloneDone(cfg, s.db, l, ids);
      ops := [];
    } else {
      var newId := if l.phase.InsertUser? then ids(l.phase.attempt) else 0;
      AloneStep(cfg, s.db, l, ids);
      StepDescends(cfg, s.db, l, newId);
      var rest := UndisturbedLoginIsResolve(Asked(s, cfg, c, newId), cfg, c, ids);
      RunFromFirst(s, cfg, Query(c, newId), rest);
      ops := [Query(c, newId)] + rest;
    }
  }
}
