/**
 What the resolver decides, case by case, stated of the identity, the tables and the policy as they are given
 and of the tables and the outcome of the whole call.
 */
module ExternalDecisions {
  import opened Wrappers
  import opened Text
  import opened Usernames
  import opened ExternalTables
  import opened ExternalLogin
  import opened ExternalPolicies
  import opened ExternalRuns

  // ---- before any query --------------------------------------------------------------------

  /** A provider, a subject of at most 255 bytes, and no claim to authority. */
  predicate ClaimsFine(provider: string, id: Identity) {
    && TrimSpace(provider) != "" && TrimSpace(id.subject) != "" && Utf8Length(TrimSpace(id.subject)) <= 255
    && forall k <- id.claims ::
         Lower(TrimSpace(k)) !in ["admin", "is_admin", "isadmin", "role", "roles", "user_id", "userid", "uid",
                                  "scope", "scopes", "banned", "hidden"]
  }

  /** An identity whose claims are not fine is refused without a write, for the first thing that is wrong. */
  lemma BadClaimsAreRefused(cfg: Config, db: Db, provider: string, id: Identity, ids: nat -> UserId)
    ensures var (db', outcome) := Resolved(cfg, db, provider, id, ids);
            !ClaimsFine(provider, id) ==>
              && db' == db
              && outcome == Rejected(if TrimSpace(provider) == "" then EmptyProvider
                                     else if TrimSpace(id.subject) == "" then NoSubject
                                     else if Utf8Length(TrimSpace(id.subject)) > 255 then SubjectTooLong
                                     else ReservedClaim)
  {
    hide Alone, Consistent, Rank, Utf8Length, TrimSpace, Lower;
    FineClaimsPassTheGate(provider, id);
    AloneStep(cfg, db, Login(provider, id, Start), ids);
  }

  lemma FineClaimsPassTheGate(provider: string, id: Identity)
    ensures ClaimsFine(provider, id) <==> ClaimGate(provider, id).None?
  {
    hide Utf8Length, TrimSpace, Lower;
    assert forall k <- id.claims ::
        IsReserved(k) <==>
        Lower(TrimSpace(k)) in ["admin", "is_admin", "isadmin", "role", "roles", "user_id", "userid", "uid",
                                "scope", "scopes", "banned", "hidden"];
  }

  /** The key under which an identity is bound. */
  predicate Unbound(db: Db, provider: string, id: Identity) {
    Key(provider, TrimSpace(id.subject)) !in db.bindings
  }

  // ---- an identity that is bound -----------------------------------------------------------

  /** A bound key decides alone, under every policy and whatever the email. */
  lemma BoundIsResolvedByItsKey(cfg: Config, db: Db, provider: string, id: Identity, ids: nat -> UserId)
    requires ClaimsFine(provider, id) && !Unbound(db, provider, id)
    ensures var user := db.bindings[Key(provider, TrimSpace(id.subject))];
            && user in db.users
            && Resolved(cfg, db, provider, id, ids)
            == (db, if db.users[user].banned then Rejected(BoundBanned) else Accepted(user, ByBinding))
  {
    hide Resolved;
    FineClaimsPassTheGate(provider, id);
    BoundLoginNeedsNoEmail(cfg, db, provider, id, ids);
  }

  // ---- an identity that is not bound -------------------------------------------------------

  function Mail(id: Identity): string {
    Lower(TrimSpace(id.email))
  }

  /** An address the provider has verified, that the mail parser accepts and that has no blank or bracket. */
  predicate EmailUsable(cfg: Config, id: Identity) {
    && Mail(id) != "" && id.emailVerified && cfg.mailOk(Mail(id))
    && ' ' !in Mail(id) && '<' !in Mail(id) && '>' !in Mail(id)
  }

  lemma MalformedExactly(email: string)
    ensures (exists c <- email :: c in " <>") <==> ' ' in email || '<' in email || '>' in email
  {
    assert forall c :: c in " <>" <==> c == ' ' || c == '<' || c == '>';
  }

  /** The policy off turns every unbound identity away, whatever its email, without a write. */
  lemma OffRefusesTheUnbound(cfg: Config, db: Db, provider: string, id: Identity, ids: nat -> UserId)
    requires ClaimsFine(provider, id) && Unbound(db, provider, id) && cfg.policy == Off
    ensures Resolved(cfg, db, provider, id, ids) == (db, Rejected(ProvisioningOff))
  {
    hide Alone, Consistent, Rank, ClaimGate;
    FineClaimsPassTheGate(provider, id);
    AloneStep(cfg, db, Login(provider, id, Start), ids);
  }

  /** The other two turn an unbound identity away when its email is of no use, for the first thing that is wrong. */
  lemma UnusableEmailIsRefused(cfg: Config, db: Db, provider: string, id: Identity, ids: nat -> UserId)
    requires ClaimsFine(provider, id) && Unbound(db, provider, id) && cfg.policy != Off && !EmailUsable(cfg, id)
    ensures Resolved(cfg, db, provider, id, ids)
         == (db, Rejected(if Mail(id) == "" then NoEmail
                          else if !id.emailVerified then EmailUnverified
                          else EmailMalformed))
  {
    hide Alone, Consistent, Rank, ClaimGate, Lower, TrimSpace;
    FineClaimsPassTheGate(provider, id);
    MalformedExactly(Mail(id));
    AloneStep(cfg, db, Login(provider, id, Start), ids);
  }

  /** With a usable email such a login goes on to look the email up. */
  lemma UsableEmailIsLookedUp(cfg: Config, db: Db, provider: string, id: Identity, ids: nat -> UserId)
    requires ClaimsFine(provider, id) && Unbound(db, provider, id) && cfg.policy != Off && EmailUsable(cfg, id)
    ensures Resolved(cfg, db, provider, id, ids) == Alone(cfg, db, Login(provider, id, FindEmail), ids)
  {
    hide Alone, Consistent, Rank, ClaimGate, Lower, TrimSpace;
    FineClaimsPassTheGate(provider, id);
    MalformedExactly(Mail(id));
    AloneStep(cfg, db, Login(provider, id, Start), ids);
  }

  /** The account with that email is bound and returned, or refused when it is banned; only the binding is added. */
  lemma MatchedEmailIsBound(cfg: Config, db: Db, provider: string, id: Identity, ids: nat -> UserId, user: UserId)
    requires ClaimsFine(provider, id) && Unbound(db, provider, id) && cfg.policy != Off && EmailUsable(cfg, id)
    requires user in db.users && Lower(db.users[user].email) == Lower(Mail(id))
    ensures var (db', outcome) := Resolved(cfg, db, provider, id, ids);
            if db.users[user].banned then db' == db && outcome == Rejected(MatchedBanned)
            else
              && outcome == Accepted(user, ByEmail) && db'.users == db.users
              && db'.bindings == db.bindings[Key(provider, TrimSpace(id.subject)) := user]
  {
    hide Alone, Consistent, Rank, Lower, TrimSpace, Resolved;
    UsableEmailIsLookedUp(cfg, db, provider, id, ids);
    var l := Login(provider, id, FindEmail);
    AloneStep(cfg, db, l, ids);
    assert HasEmail(db, user, Email(id));
    if !db.users[user].banned {
      AloneStep(cfg, db, l.(phase := Bind(user, ByEmail)), ids);
    }
  }

  /** No account has the email. */
  predicate NobodyHas(db: Db, email: string) {
    forall user <- db.users :: Lower(db.users[user].email) != Lower(email)
  }

  lemma NobodyIsFound(db: Db, email: string)
    requires NobodyHas(db, email)
    ensures UserByEmail(db, email).None?
  {
    hide Consistent, Lower;
  }

  /** The policy invite-only creates no account. */
  lemma InviteOnlyCreatesNothing(cfg: Config, db: Db, provider: string, id: Identity, ids: nat -> UserId)
    requires ClaimsFine(provider, id) && Unbound(db, provider, id) && EmailUsable(cfg, id) && NobodyHas(db, Mail(id))
    requires cfg.policy == InviteOnly
    ensures Resolved(cfg, db, provider, id, ids) == (db, Rejected(NoAccount))
  {
    hide Alone, Consistent, Rank, Lower, TrimSpace, Resolved;
    UsableEmailIsLookedUp(cfg, db, provider, id, ids);
    NobodyIsFound(db, Mail(id));
    AloneStep(cfg, db, Login(provider, id, FindEmail), ids);
  }

  /** The policy open creates it: under the first candidate nobody holds, with that email, a password that never
      verifies and the lowest role, neither banned nor hidden; and binds it. With every candidate held the login is
      refused. */
  lemma OpenCreatesTheAccount(cfg: Config, db: Db, provider: string, id: Identity, ids: nat -> UserId)
    requires ClaimsFine(provider, id) && Unbound(db, provider, id) && EmailUsable(cfg, id) && NobodyHas(db, Mail(id))
    requires cfg.policy == Open && forall a: Attempt :: ids(a) !in db.users
    ensures var (db', outcome) := Resolved(cfg, db, provider, id, ids);
            var base := BaseName(id);
            if forall a: Attempt :: NameTaken(db, Candidate(base, a)) then db' == db && outcome == Rejected(NoUsername)
            else exists a: Attempt ::
              && !NameTaken(db, Candidate(base, a)) && (forall b: Attempt | b < a :: NameTaken(db, Candidate(base, b)))
              && outcome == Accepted(ids(a), ByCreation)
              && db'.users == db.users[ids(a) := User(Candidate(base, a), Mail(id), "!", Participant, false, false)]
              && db'.bindings == db.bindings[Key(provider, TrimSpace(id.subject)) := ids(a)]
  {
    hide Alone, Consistent, Rank, Lower, TrimSpace, Resolved, Candidate, BaseName, NameTaken, FirstFree;
    UsableEmailIsLookedUp(cfg, db, provider, id, ids);
    NobodyIsFound(db, Mail(id));
    var l := Login(provider, id, FindEmail);
    AloneStep(cfg, db, l, ids);
    ProvisionTakesTheFirstFreeName(cfg, db, l.(phase := InsertUser(0)), ids);
    FirstFreeExactly(db, BaseName(id), 0);
  }

  lemma {:induction false} FirstFreeExactly(db: Db, base: string, a: Attempt)
    ensures var free := FirstFree(db, base, a);
            if free.None? then forall b: Attempt | a <= b :: NameTaken(db, Candidate(base, b))
            else
              && a <= free.value && !NameTaken(db, Candidate(base, free.value))
              && forall b: Attempt | a <= b < free.value :: NameTaken(db, Candidate(base, b))
    decreases PROVISION_ATTEMPTS - a
  {
    hide NameTaken, Candidate, Consistent;
    if NameTaken(db, Candidate(base, a)) && a + 1 < PROVISION_ATTEMPTS {
      FirstFreeExactly(db, base, a + 1);
    }
  }

  /** An insert that fails because someone took the email meanwhile ends at that account, as a match would have. */
  lemma LostEmailIsMatched(cfg: Config, db: Db, l: Login, ids: nat -> UserId, user: UserId)
    requires l.phase.InsertUser? && KeyOf(l) !in db.bindings
    requires user in db.users && Lower(db.users[user].email) == Lower(Mail(l.id))
    ensures var (db', outcome) := Alone(cfg, db, l, ids);
            if db.users[user].banned then db' == db && outcome == Rejected(MatchedBanned)
            else
              && outcome == Accepted(user, ByEmail) && db'.users == db.users
              && db'.bindings == db.bindings[Key(l.provider, TrimSpace(l.id.subject)) := user]
  {
    hide Alone, Rank, Lower, TrimSpace, Candidate, BaseName;
    var a := l.phase.attempt;
    BaseNameIsLegal(l.id);
    CandidatesAreLegal(BaseName(l.id), a);
    assert Clash(NewAccount(l.id, a), db.users[user]);
    AloneStep(cfg, db, l, ids);
    assert HasEmail(db, user, Email(l.id));
    AloneStep(cfg, db, l.(phase := Recheck(a)), ids);
    if !db.users[user].banned {
      AloneStep(cfg, db, l.(phase := Bind(user, ByEmail)), ids);
    }
  }

  // ---- the name an account starts from -----------------------------------------------------

  lemma {:induction false} LocalPartEndsAtTheFirstAt(a: string, b: string)
    requires '@' !in a
    ensures LocalPart(a + "@" + b) == a
  {
    var email := a + "@" + b;
    if a != "" {
      assert email[1..] == a[1..] + "@" + b && email[0] == a[0];
      LocalPartEndsAtTheFirstAt(a[1..], b);
      assert a == [a[0]] + a[1..];
    }
  }

  /** A legal suggestion is the base; without a usable one a legal local part is; failing that it is "user". */
  lemma BaseNameInPlainWords(id: Identity, a: string, b: string)
    requires '@' !in a && Mail(id) == a + "@" + b
    ensures LegalName(id.username) ==> BaseName(id) == id.username
    ensures Sanitized(id.username) == "" && LegalName(a) ==> BaseName(id) == a
    ensures Sanitized(id.username) == "" && Sanitized(a) == "" ==> BaseName(id) == "user"
  {
    hide Sanitized, Lower, TrimSpace;
    LocalPartEndsAtTheFirstAt(a, b);
    SanitizedFixedPoints(id.username);
    SanitizedFixedPoints(a);
    assert (a + "@" + b)[|a|] == '@';
  }

  // ---- what the policies allow over whole runs ---------------------------------------------

  /** The phases a login never reaches: under invite-only those of creation, under off also those of matching. */
  predicate PhaseAllowed(cfg: Config, p: Phase) {
    && (cfg.policy != Open ==> !p.InsertUser? && !p.Recheck?)
    && (cfg.policy == Off ==> !p.FindEmail? && !p.Bind?)
  }

  predicate PolicyKept(cfg: Config, db0: Db, s: System) {
    && (forall c <- s.logins :: PhaseAllowed(cfg, s.logins[c].phase))
    && (cfg.policy != Open ==> s.createdBy == map[])
    && (cfg.policy == Off ==> s.db.bindings == db0.bindings && s.wrote == {})
  }

  lemma ApplyKeepsPolicy(cfg: Config, db0: Db, s: System, op: Op)
    requires PolicyKept(cfg, db0, s)
    ensures PolicyKept(cfg, db0, Apply(s, cfg, op))
  {
    hide Consistent, NewAccount, Clash, ClaimGate;
    if op.Query? && op.call in s.logins {
      StepKeepsPolicy(cfg, s.db, s.logins[op.call], op.newId);
    }
  }

  lemma StepKeepsPolicy(cfg: Config, db: Db, l: Login, newId: UserId)
    requires PhaseAllowed(cfg, l.phase)
    ensures var (db', phase) := ExternalLogin.Step(cfg, db, l, newId);
            && PhaseAllowed(cfg, phase)
            && (cfg.policy != Open ==> db'.users == db.users)
            && (cfg.policy == Off ==> db' == db)
  {
    hide Consistent, NewAccount, CreateUser, ClaimGate, UserByEmail;
  }

  /** Over any run: only under the policy open does a login create an account, and under off no login changes
      either table, so that the bindings stay as they were. */
  lemma {:induction false} PoliciesBoundEveryRun(cfg: Config, db: Db, ops: seq<Op>)
    ensures PolicyKept(cfg, db, Run(Init(db), cfg, ops))
    ensures cfg.policy != Open ==> Run(Init(db), cfg, ops).createdBy == map[]
    ensures cfg.policy == Off ==>
              Run(Init(db), cfg, ops).db.bindings == db.bindings && Run(Init(db), cfg, ops).wrote == {}
  {
    hide Consistent, Apply;
    if ops != [] {
      PoliciesBoundEveryRun(cfg, db, ops[..|ops| - 1]);
      ApplyKeepsPolicy(cfg, db, Run(Init(db), cfg, ops[..|ops| - 1]), ops[|ops| - 1]);
    }
  }

  // ---- the case of letters in an email -----------------------------------------------------

  lemma MailForgetsCase(id: Identity, email: string)
    requires SameUpToCase(id.email, email)
    ensures Email(id.(email := email)) == Email(id)
  {
    hide Lower, TrimLeft, TrimRight;
    TrimLeftForgetsCase(id.email, email);
    TrimRightForgetsCase(TrimLeft(id.email), TrimLeft(email));
    LowerForgetsCase(TrimSpace(id.email), TrimSpace(email));
  }

  lemma {:induction false} AloneAsksOnlyForTheMail(cfg: Config, db: Db, l: Login, email: string, ids: nat -> UserId)
    requires Email(l.id.(email := email)) == Email(l.id)
    ensures Alone(cfg, db, l.(id := l.id.(email := email)), ids) == Alone(cfg, db, l, ids)
    decreases Rank(l.phase)
  {
    hide Alone, Consistent, Rank;
    var l' := l.(id := l.id.(email := email));
    if l.phase.Done? {
      AloneDone(cfg, db, l, ids);
      AloneDone(cfg, db, l', ids);
    } else {
      var newId := if l.phase.InsertUser? then ids(l.phase.attempt) else 0;
      AloneStep(cfg, db, l, ids);
      AloneStep(cfg, db, l', ids);
      StepAsksOnlyForTheMail(cfg, db, l, email, newId);
      StepDescends(cfg, db, l, newId);
      var (db', phase) := ExternalLogin.Step(cfg, db, l, newId);
      AloneAsksOnlyForTheMail(cfg, db', l.(phase := phase), email, ids);
    }
  }

  lemma StepAsksOnlyForTheMail(cfg: Config, db: Db, l: Login, email: string, newId: UserId)
    requires Email(l.id.(email := email)) == Email(l.id)
    ensures ExternalLogin.Step(cfg, db, l.(id := l.id.(email := email)), newId) == ExternalLogin.Step(cfg, db, l, newId)
  {
    hide Consistent, Email, CreateUser, UserByEmail, Sanitized, Candidate, LocalPart;
  }

  /** Emails that differ only in the case of ASCII letters resolve alike, to the same tables and the same outcome. */
  lemma EmailsResolveWithoutCase(cfg: Config, db: Db, provider: string, id: Identity, email: string, ids: nat -> UserId)
    requires SameUpToCase(id.email, email)
    ensures Resolved(cfg, db, provider, id.(email := email), ids) == Resolved(cfg, db, provider, id, ids)
  {
    hide Alone, Consistent, Email;
    MailForgetsCase(id, email);
    AloneAsksOnlyForTheMail(cfg, db, Login(provider, id, Start), email, ids);
  }

  /** And neither emails nor usernames that differ only in case can be held by two accounts. */
  lemma CaseDoesNotMakeAnAccount(db: Db, a: UserId, b: UserId)
    requires a in db.users && b in db.users
    requires || SameUpToCase(db.users[a].email, db.users[b].email)
             || SameUpToCase(db.users[a].username, db.users[b].username)
    ensures a == b
  {
    hide Lower;
    if SameUpToCase(db.users[a].email, db.users[b].email) {
      LowerForgetsCase(db.users[a].email, db.users[b].email);
    } else {
      LowerForgetsCase(db.users[a].username, db.users[b].username);
    }
    assert a != b ==> Clash(db.users[a], db.users[b]);
  }
}
