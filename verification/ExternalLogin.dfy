/**
 One external login as a sequence of queries: after each query the login is in a phase that says which query
 comes next. Run to its end without interference it is what a single call of Resolve does.
 */
module ExternalLogin {
  import opened Wrappers
  import opened Text
  import opened Usernames
  import opened ExternalTables

  const MAX_SUBJECT_LEN := 255
  const NO_PASSWORD_HASH := "!"
  const FALLBACK_NAME := "user"

  const RESERVED_CLAIM_KEYS: set<string> := {
    "admin", "is_admin", "isadmin", "role", "roles", "user_id", "userid", "uid",
    "scope", "scopes", "banned", "hidden" }

  datatype Policy = Open | InviteOnly | Off

  /** The policy, and what the mail-address parser accepts. */
  datatype Config = Config(policy: Policy, mailOk: string -> bool)

  datatype Identity = Identity(subject: string, email: string, username: string, emailVerified: bool,
                               claims: map<string, string>)

  datatype Reason =
    | EmptyProvider | NoSubject | SubjectTooLong | ReservedClaim | BoundBanned
    | ProvisioningOff | NoEmail | EmailUnverified | EmailMalformed
    | MatchedBanned | NoAccount | NoUsername

  datatype Route = ByBinding | ByEmail | ByCreation

  datatype Outcome = Accepted(user: UserId, route: Route) | Rejected(reason: Reason) | Failed

  type Attempt = a: nat | a < PROVISION_ATTEMPTS

  datatype Phase =
    | Start
    | LoadBound(user: UserId)
    | FindEmail
    | InsertUser(attempt: Attempt)
    | Recheck(attempt: Attempt)
    | Bind(user: UserId, route: Route)
    | Done(outcome: Outcome)

  datatype Login = Login(provider: string, id: Identity, phase: Phase)

  function Subject(id: Identity): string {
    TrimSpace(id.subject)
  }

  function Email(id: Identity): string {
    Lower(TrimSpace(id.email))
  }

  function KeyOf(l: Login): Key {
    Key(l.provider, Subject(l.id))
  }

  predicate IsReserved(k: string) {
    Lower(TrimSpace(k)) in RESERVED_CLAIM_KEYS
  }

  /** The refusals that need no database. */
  function ClaimGate(provider: string, id: Identity): Option<Reason> {
    if TrimSpace(provider) == "" then Some(EmptyProvider)
    else if Subject(id) == "" then Some(NoSubject)
    else if Utf8Length(Subject(id)) > MAX_SUBJECT_LEN then Some(SubjectTooLong)
    else if exists k <- id.claims :: IsReserved(k) then Some(ReservedClaim)
    else None
  }

  /** The refusals of an identity that is not bound. */
  function EmailGate(cfg: Config, id: Identity): Option<Reason> {
    if cfg.policy == Off then Some(ProvisioningOff)
    else if Email(id) == "" then Some(NoEmail)
    else if !id.emailVerified then Some(EmailUnverified)
    else if !cfg.mailOk(Email(id)) || exists c <- Email(id) :: c in " <>" then Some(EmailMalformed)
    else None
  }

  /** The part of an email before its first @. */
  function LocalPart(email: string): string {
    if email == "" || email[0] == '@' then "" else [email[0]] + LocalPart(email[1..])
  }

  function BaseName(id: Identity): string {
    var suggested := Sanitized(id.username);
    var local := if '@' in Email(id) then Sanitized(LocalPart(Email(id))) else "";
    if suggested != "" then suggested else if local != "" then local else FALLBACK_NAME
  }

  /** The account an unbound, verified identity is given: never anything but the lowest role. */
  function NewAccount(id: Identity, attempt: Attempt): User {
    User(Candidate(BaseName(id), attempt), Email(id), NO_PASSWORD_HASH, Participant, false, false)
  }

  /** The account was found by its email. */
  function Matched(db: Db, user: UserId): Phase
    requires user in db.users
  {
    if db.users[user].banned then Done(Rejected(MatchedBanned)) else Bind(user, ByEmail)
  }

  function OnStart(cfg: Config, db: Db, l: Login): Phase {
    var gate := ClaimGate(l.provider, l.id);
    if gate.Some? then Done(Rejected(gate.value))
    else if KeyOf(l) in db.bindings then LoadBound(db.bindings[KeyOf(l)])
    else
      var refused := EmailGate(cfg, l.id);
      if refused.Some? then Done(Rejected(refused.value)) else FindEmail
  }

  function OnLoadBound(db: Db, user: UserId): Phase {
    Done(if user !in db.users then Failed
         else if db.users[user].banned then Rejected(BoundBanned)
         else Accepted(user, ByBinding))
  }

  function OnFindEmail(cfg: Config, db: Db, l: Login): Phase {
    var found := UserByEmail(db, Email(l.id));
    if found.Some? then Matched(db, found.value)
    else if cfg.policy != Open then Done(Rejected(NoAccount))
    else InsertUser(0)
  }

  function OnInsertUser(db: Db, l: Login, attempt: Attempt, newId: UserId): (Db, Phase) {
    match CreateUser(db, newId, NewAccount(l.id, attempt))
    case Inserted(db') => (db', Bind(newId, ByCreation))
    case UniqueViolation => (db, Recheck(attempt))
    case OtherViolation => (db, Done(Failed))
  }

  function OnRecheck(db: Db, l: Login, attempt: Attempt): Phase {
    var found := UserByEmail(db, Email(l.id));
    if found.Some? then Matched(db, found.value)
    else if attempt + 1 < PROVISION_ATTEMPTS then InsertUser(attempt + 1)
    else Done(Rejected(NoUsername))
  }

  /** A unique violation means that another login bound the key first; the user is accepted all the same. */
  function OnBind(db: Db, l: Login, user: UserId, route: Route): (Db, Outcome) {
    match CreateAuthIdentity(db, KeyOf(l), user)
    case Inserted(db') => (db', Accepted(user, route))
    case UniqueViolation => (db, Accepted(user, route))
    case OtherViolation => (db, Failed)
  }

  /** One query, and what the resolver makes of its answer. */
  function Step(cfg: Config, db: Db, l: Login, newId: UserId): (Db, Phase) {
    match l.phase
    case Start => (db, OnStart(cfg, db, l))
    case LoadBound(user) => (db, OnLoadBound(db, user))
    case FindEmail => (db, OnFindEmail(cfg, db, l))
    case InsertUser(attempt) => OnInsertUser(db, l, attempt, newId)
    case Recheck(attempt) => (db, OnRecheck(db, l, attempt))
    case Bind(user, route) => var (db', outcome) := OnBind(db, l, user, route); (db', Done(outcome))
    case Done(_) => (db, l.phase)
  }

  /** How many queries a login can still make. */
  function Rank(p: Phase): nat {
    match p
    case Start => 2 * PROVISION_ATTEMPTS + 3
    case LoadBound(_) => 1
    case FindEmail => 2 * PROVISION_ATTEMPTS + 2
    case InsertUser(a) => 2 * (PROVISION_ATTEMPTS - a) + 1
    case Recheck(a) => 2 * (PROVISION_ATTEMPTS - a)
    case Bind(_, _) => 1
    case Done(_) => 0
  }

  lemma StepDescends(cfg: Config, db: Db, l: Login, newId: UserId)
    requires !l.phase.Done?
    ensures Rank(Step(cfg, db, l, newId).1) < Rank(l.phase)
  {
    hide Consistent, ClaimGate, EmailGate, UserByEmail, NewAccount, CreateUser, CreateAuthIdentity, KeyOf, Email;
    match l.phase
    case Start =>
    case LoadBound(user) =>
    case FindEmail =>
    case InsertUser(attempt) =>
    case Recheck(attempt) =>
    case Bind(user, route) =>
  }

  /** The login run to its end with no other query in between; attempt a draws the id ids(a). */
  function Alone(cfg: Config, db: Db, l: Login, ids: nat -> UserId): (Db, Outcome)
    decreases Rank(l.phase)
  {
    if l.phase.Done? then (db, l.phase.outcome)
    else
      var newId := if l.phase.InsertUser? then ids(l.phase.attempt) else 0;
      StepDescends(cfg, db, l, newId);
      Alone(cfg, Step(cfg, db, l, newId).0, l.(phase := Step(cfg, db, l, newId).1), ids)
  }

  /** The first step of a run, and the second one when the first ends it. */
  lemma AloneStep(cfg: Config, db: Db, l: Login, ids: nat -> UserId)
    requires !l.phase.Done?
    ensures var (db', phase) := Step(cfg, db, l, if l.phase.InsertUser? then ids(l.phase.attempt) else 0);
            && Alone(cfg, db, l, ids) == Alone(cfg, db', l.(phase := phase), ids)
            && (phase.Done? ==> Alone(cfg, db, l, ids) == (db', phase.outcome))
  {
  }

  lemma AloneDone(cfg: Config, db: Db, l: Login, ids: nat -> UserId)
    ensures l.phase.Done? ==> Alone(cfg, db, l, ids) == (db, l.phase.outcome)
  {
  }

  function Resolved(cfg: Config, db: Db, provider: string, id: Identity, ids: nat -> UserId): (Db, Outcome) {
    Alone(cfg, db, Login(provider, id, Start), ids)
  }

  lemma BaseNameIsLegal(id: Identity)
    ensures LegalName(BaseName(id))
  {
  }
}
