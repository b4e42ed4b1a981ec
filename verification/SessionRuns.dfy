/**
 Any number of session-store calls in flight at once. Every Redis command or pipeline is one atomic step
 and the steps of different calls, new calls and clock ticks come in any order.
 */
module SessionRuns {
  import opened Keyspace
  import opened Sessions

  type CallId = nat

  /** Where a call stands between two of its Redis round trips. */
  datatype Call =
    | Reading(token: Token, user: UserId, remove: bool)
    | Refreshing(token: Token, user: UserId, remove: bool, readAt: int, seen: int)
    | Removing(token: Token, user: UserId)
    | Revoking(user: UserId, keep: Token, members: set<Token>)
    | Over

  /** The keyspace and the calls in flight, with the history the properties speak about: whom each token
      was minted for and with what profile, which tokens a pipeline deleted, when each session's lifetime was
      last set, and when a Get last left it with at least half a lifetime. */
  datatype System = System(
    store: Store,
    calls: map<CallId, Call>,
    minted: map<Token, UserId>,
    profiles: map<Token, Profile>,
    deleted: set<Token>,
    refreshedAt: map<Token, int>,
    keptAt: map<Token, int>)

  datatype Op =
    | Tick(d: nat)
    | Create(token: Token, user: UserId, profile: Profile)
    | GetStart(call: CallId, token: Token, remove: bool)
    | GetTtl(call: CallId)
    | GetRefresh(call: CallId)
    | GetGoesOn(call: CallId)
    | DeleteCommit(call: CallId)
    | RevokeStart(call: CallId, user: UserId, keep: Token)
    | RevokeCommit(call: CallId)
    | Abandon(call: CallId)

  function Fresh(now: int): System {
    System(Store(now, map[], map[]), map[], map[], map[], {}, map[], map[])
  }

  /** What a Get does once it has its answer: return, or go on to delete when Delete called it. */
  function Then(token: Token, user: UserId, remove: bool): Call {
    if remove then Removing(token, user) else Over
  }

  /** One step; an operation that does not fit the state of its call changes nothing. */
  function Step(s: System, ttl: int, op: Op): System {
    match op
    case Tick(d) =>
      s.(store := Advance(s.store, d))
    case Create(token, user, profile) =>
      if token in s.minted || token == "" then s
      else s.(store := Created(s.store, ttl, token, user, profile),
              minted := s.minted[token := user],
              profiles := s.profiles[token := profile],
              refreshedAt := s.refreshedAt[token := s.store.now],
              keptAt := s.keptAt[token := s.store.now])
    case GetStart(c, token, remove) =>
      if c in s.calls then s
      else
        var found := Lookup(s.store, token);
        s.(calls := s.calls[c := if found.Err? then Over else Reading(token, found.value.user, remove)])
    case GetTtl(c) =>
      if c in s.calls && s.calls[c].Reading? then AnswerTtl(s, ttl, c) else s
    case GetRefresh(c) =>
      if c in s.calls && s.calls[c].Refreshing? then
        var Refreshing(token, user, remove, _, _) := s.calls[c];
        s.(store := Refreshed(s.store, ttl, token, user),
           calls := s.calls[c := Then(token, user, remove)],
           refreshedAt := if token in s.store.sessions then s.refreshedAt[token := s.store.now] else s.refreshedAt,
           keptAt := if token in s.store.sessions then s.keptAt[token := s.store.now] else s.keptAt)
      else s
    // The answer to TTL or the refresh failed, which a Get ignores.
    case GetGoesOn(c) =>
      if c in s.calls && (s.calls[c].Reading? || s.calls[c].Refreshing?) then
        s.(calls := s.calls[c := Then(s.calls[c].token, s.calls[c].user, s.calls[c].remove)])
      else s
    case DeleteCommit(c) =>
      if c in s.calls && s.calls[c].Removing? then
        var Removing(token, user) := s.calls[c];
        s.(store := Revoked(s.store, user, {token}), calls := s.calls[c := Over], deleted := s.deleted + {token})
      else s
    case RevokeStart(c, user, keep) =>
      if c in s.calls then s else s.(calls := s.calls[c := Revoking(user, keep, Members(s.store, user))])
    case RevokeCommit(c) =>
      if c in s.calls && s.calls[c].Revoking? then
        var doomed := s.calls[c].members - {s.calls[c].keep};
        s.(store := Revoked(s.store, s.calls[c].user, doomed), calls := s.calls[c := Over],
           deleted := s.deleted + doomed)
      else s
    case Abandon(c) =>
      s.(calls := s.calls[c := Over])
  }

  function AnswerTtl(s: System, ttl: int, c: CallId): System
    requires c in s.calls && s.calls[c].Reading?
  {
    var Reading(token, user, remove) := s.calls[c];
    var left := TimeLeft(s.store, token);
    if RefreshDue(ttl, left) then
      s.(calls := s.calls[c := Refreshing(token, user, remove, s.store.now, s.store.now + left)])
    else
      s.(calls := s.calls[c := Then(token, user, remove)],
         keptAt := if token in s.store.sessions then s.keptAt[token := s.store.now] else s.keptAt)
  }

  function Run(s: System, ttl: int, ops: seq<Op>): System {
    if ops == [] then s else Step(Run(s, ttl, ops[..|ops| - 1]), ttl, ops[|ops| - 1])
  }

  // ---- the invariant -----------------------------------------------------------------------

  /** The session is in the set of its owner, and the set outlives it by a whole session lifetime. */
  predicate Covered(st: Store, ttl: int, t: Token)
    requires t in st.sessions
  {
    var k := st.sessions[t];
    && k.expires.At? && st.now < k.expires.time <= st.now + ttl
    && k.user in st.index && t in st.index[k.user].members
    && st.index[k.user].expires.At? && k.expires.time + ttl <= st.index[k.user].expires.time
  }

  predicate IndexTimed(st: Store, ttl: int, u: UserId)
    requires u in st.index
  {
    var e := st.index[u].expires;
    st.index[u].members != {} && e.At? && st.now < e.time <= st.now + 2 * ttl
  }

  predicate MintedFor(minted: map<Token, UserId>, t: Token, u: UserId) {
    t in minted && minted[t] == u
  }

  predicate StoreOk(st: Store, ttl: int, minted: map<Token, UserId>) {
    && (forall t <- st.sessions :: t != "" && MintedFor(minted, t, st.sessions[t].user) && Covered(st, ttl, t))
    && (forall u <- st.index :: IndexTimed(st, ttl, u) && forall t <- st.index[u].members :: MintedFor(minted, t, u))
  }

  predicate CallOk(s: System, ttl: int, c: Call) {
    match c
    case Reading(token, user, _) => MintedFor(s.minted, token, user)
    case Refreshing(token, user, _, readAt, seen) =>
      && MintedFor(s.minted, token, user) && readAt <= s.store.now && 0 < seen - readAt < ttl / 2
      && token in s.refreshedAt && (seen == s.refreshedAt[token] + ttl || readAt <= s.refreshedAt[token])
    case Removing(token, user) => MintedFor(s.minted, token, user)
    case Revoking(user, _, members) => forall t <- members :: MintedFor(s.minted, t, user)
    case Over => true
  }

  predicate HistoryOk(s: System, ttl: int) {
    && "" !in s.minted && s.deleted <= s.minted.Keys
    && s.refreshedAt.Keys == s.keptAt.Keys == s.minted.Keys == s.profiles.Keys
    && forall t <- s.store.sessions ::
         && t !in s.deleted && t in s.profiles && s.store.sessions[t].profile == s.profiles[t]
         && t in s.refreshedAt && s.store.sessions[t].expires == At(s.refreshedAt[t] + ttl)
  }

  predicate Inv(s: System, ttl: int) {
    && StoreOk(s.store, ttl, s.minted)
    && HistoryOk(s, ttl)
    && forall c <- s.calls :: CallOk(s, ttl, s.calls[c])
  }

  lemma IndexedKeepsOk(st: Store, st': Store, ttl: int, minted: map<Token, UserId>, token: Token, user: UserId)
    requires StoreOk(st, ttl, minted) && MintedFor(minted, token, user) && token != ""
    requires st'.now == st.now && st'.index == Indexed(st, ttl, user, token)
    requires forall t <- st'.sessions :: if t == token
      then st'.sessions[t].user == user && st'.sessions[t].expires == At(st.now + ttl)
                                         else t in st.sessions && st'.sessions[t] == st.sessions[t]
    requires ttl <= 0 ==> token !in st'.sessions
    ensures StoreOk(st', ttl, minted)
  {
    forall t <- st'.sessions
      ensures t != "" && MintedFor(minted, t, st'.sessions[t].user) && Covered(st', ttl, t)
    {
      if t != token {
        assert Covered(st, ttl, t);
      }
    }
  }

  lemma RevokedKeepsOk(st: Store, ttl: int, minted: map<Token, UserId>, user: UserId, doomed: set<Token>)
    requires StoreOk(st, ttl, minted) && forall t <- doomed :: MintedFor(minted, t, user)
    ensures StoreOk(Revoked(st, user, doomed), ttl, minted)
  {
    var st' := Revoked(st, user, doomed);
    forall t <- st'.sessions
      ensures t != "" && MintedFor(minted, t, st'.sessions[t].user) && Covered(st', ttl, t)
    {
      assert Covered(st, ttl, t);
      if user in st.index && st.sessions[t].user == user {
        assert t in st.index[user].members - doomed;
      }
    }
    forall u <- st'.index
      ensures IndexTimed(st', ttl, u) && forall t <- st'.index[u].members :: MintedFor(minted, t, u)
    {
      assert IndexTimed(st, ttl, u);
    }
  }

  lemma TickKeepsOk(st: Store, ttl: int, minted: map<Token, UserId>, d: nat)
    requires StoreOk(st, ttl, minted)
    ensures StoreOk(Advance(st, d), ttl, minted)
  {
    var st' := Advance(st, d);
    forall t <- st'.sessions
      ensures t != "" && MintedFor(minted, t, st'.sessions[t].user) && Covered(st', ttl, t)
    {
      assert Covered(st, ttl, t);
    }
    forall u <- st'.index
      ensures IndexTimed(st', ttl, u) && forall t <- st'.index[u].members :: MintedFor(minted, t, u)
    {
      assert IndexTimed(st, ttl, u);
    }
  }

  lemma CreateKeepsInv(s: System, ttl: int, token: Token, user: UserId, profile: Profile)
    requires Inv(s, ttl)
    ensures Inv(Step(s, ttl, Create(token, user, profile)), ttl)
  {
    hide Covered, IndexTimed, CallOk, HistoryOk, Indexed;
    var s' := Step(s, ttl, Create(token, user, profile));
    if token !in s.minted && token != "" {
      CreateKeepsHistory(s, ttl, token, user, profile);
      IndexedKeepsOk(s.store, s'.store, ttl, s'.minted, token, user) by {
        assert StoreOk(s.store, ttl, s'.minted);
      }
      forall c <- s'.calls
        ensures CallOk(s', ttl, s'.calls[c])
      {
        CreateKeepsCall(s, ttl, token, user, profile, s.calls[c]);
      }
    }
  }

  lemma CreateKeepsHistory(s: System, ttl: int, token: Token, user: UserId, profile: Profile)
    requires HistoryOk(s, ttl)
    ensures HistoryOk(Step(s, ttl, Create(token, user, profile)), ttl)
  {
    hide Indexed;
  }

  lemma CreateKeepsCall(s: System, ttl: int, token: Token, user: UserId, profile: Profile, c: Call)
    requires CallOk(s, ttl, c)
    ensures CallOk(Step(s, ttl, Create(token, user, profile)), ttl, c)
  {
    hide Indexed;
  }

  lemma RefreshKeepsStore(s: System, ttl: int, token: Token, user: UserId)
    requires Inv(s, ttl) && MintedFor(s.minted, token, user) && 0 < ttl / 2
    ensures StoreOk(Refreshed(s.store, ttl, token, user), ttl, s.minted)
  {
    assert token in s.store.sessions ==> Covered(s.store, ttl, token);
    IndexedKeepsOk(s.store, Refreshed(s.store, ttl, token, user), ttl, s.minted, token, user);
  }

  lemma RefreshKeepsCall(s: System, ttl: int, c: CallId, d: Call)
    requires c in s.calls && s.calls[c].Refreshing? && CallOk(s, ttl, d)
    ensures CallOk(Step(s, ttl, GetRefresh(c)), ttl, d)
  {
    hide Indexed;
  }

  lemma RefreshKeepsHistory(s: System, ttl: int, c: CallId)
    requires HistoryOk(s, ttl) && c in s.calls && s.calls[c].Refreshing?
    requires MintedFor(s.minted, s.calls[c].token, s.calls[c].user)
    ensures HistoryOk(Step(s, ttl, GetRefresh(c)), ttl)
  {
    hide Indexed;
  }

  lemma RefreshKeepsInv(s: System, ttl: int, c: CallId)
    requires Inv(s, ttl) && c in s.calls && s.calls[c].Refreshing?
    ensures Inv(Step(s, ttl, GetRefresh(c)), ttl)
  {
    hide StoreOk, HistoryOk, Refreshed;
    var s' := Step(s, ttl, GetRefresh(c));
    assert CallOk(s, ttl, s.calls[c]);
    RefreshKeepsStore(s, ttl, s.calls[c].token, s.calls[c].user);
    RefreshKeepsHistory(s, ttl, c);
    forall d <- s'.calls
      ensures CallOk(s', ttl, s'.calls[d])
    {
      if d != c {
        RefreshKeepsCall(s, ttl, c, s.calls[d]);
      }
    }
  }

  lemma RevokeKeepsHistory(s: System, s': System, ttl: int, user: UserId, doomed: set<Token>)
    requires HistoryOk(s, ttl) && forall t <- doomed :: MintedFor(s.minted, t, user)
    requires s'.(calls := s.calls) == s.(store := Revoked(s.store, user, doomed), deleted := s.deleted + doomed)
    ensures HistoryOk(s', ttl)
  {
    hide Revoked;
    RevokedExactly(s.store, user, doomed);
  }

  lemma RevokeKeepsInv(s: System, s': System, ttl: int, c: CallId, user: UserId, doomed: set<Token>)
    requires Inv(s, ttl) && forall t <- doomed :: MintedFor(s.minted, t, user)
    requires s' == s.(store := Revoked(s.store, user, doomed), calls := s.calls[c := Over],
                      deleted := s.deleted + doomed)
    ensures Inv(s', ttl)
  {
    hide HistoryOk, StoreOk;
    RevokedKeepsOk(s.store, ttl, s.minted, user, doomed);
    RevokeKeepsHistory(s, s', ttl, user, doomed);
    forall d <- s'.calls
      ensures CallOk(s', ttl, s'.calls[d])
    {
      if d != c {
        assert CallOk(s, ttl, s.calls[d]);
        RevokeKeepsCall(s, s', ttl, s.calls[d]);
      }
    }
  }

  lemma RevokeKeepsCall(s: System, s': System, ttl: int, d: Call)
    requires CallOk(s, ttl, d)
    requires s'.minted == s.minted && s'.refreshedAt == s.refreshedAt && s'.store.now == s.store.now
    ensures CallOk(s', ttl, d)
  {
  }

  /** A step that leaves the store and its history alone and gives one call a state that is in order. */
  lemma CallKeepsInv(s: System, s': System, ttl: int, c: CallId)
    requires Inv(s, ttl)
    requires s'.store == s.store && s'.minted == s.minted && s'.deleted == s.deleted && s'.profiles == s.profiles
    requires s'.refreshedAt == s.refreshedAt
    requires s'.keptAt.Keys == s.keptAt.Keys
    requires c in s'.calls && CallOk(s', ttl, s'.calls[c]) && s'.calls == s.calls[c := s'.calls[c]]
    ensures Inv(s', ttl)
  {
    forall d <- s'.calls
      ensures CallOk(s', ttl, s'.calls[d])
    {
      assert d != c ==> CallOk(s, ttl, s.calls[d]);
    }
  }

  lemma TtlKeepsInv(s: System, ttl: int, c: CallId)
    requires Inv(s, ttl) && c in s.calls && s.calls[c].Reading?
    ensures Inv(AnswerTtl(s, ttl, c), ttl)
  {
    assert CallOk(s, ttl, s.calls[c]);
    CallKeepsInv(s, AnswerTtl(s, ttl, c), ttl, c);
  }

  lemma TickKeepsInv(s: System, ttl: int, d: nat)
    requires Inv(s, ttl)
    ensures Inv(Step(s, ttl, Tick(d)), ttl)
  {
    hide StoreOk;
    var s' := Step(s, ttl, Tick(d));
    TickKeepsOk(s.store, ttl, s.minted, d);
    forall c <- s'.calls
      ensures CallOk(s', ttl, s'.calls[c])
    {
      assert CallOk(s, ttl, s.calls[c]);
    }
  }

  lemma LookupIsMinted(s: System, ttl: int, token: Token)
    requires StoreOk(s.store, ttl, s.minted)
    ensures var found := Lookup(s.store, token); found.Ok? ==> MintedFor(s.minted, token, found.value.user)
  {
    hide Covered, IndexTimed;
  }

  lemma MembersAreMinted(s: System, ttl: int, user: UserId)
    requires StoreOk(s.store, ttl, s.minted)
    ensures forall t <- Members(s.store, user) :: MintedFor(s.minted, t, user)
  {
    hide Covered, IndexTimed;
  }

  lemma StepKeepsInv(s: System, ttl: int, op: Op)
    requires Inv(s, ttl)
    ensures Inv(Step(s, ttl, op), ttl)
  {
    hide StoreOk, HistoryOk, Created, Refreshed, Revoked, Lookup, Members, AnswerTtl, MintedFor;
    var s' := Step(s, ttl, op);
    match op
    case Tick(d) => TickKeepsInv(s, ttl, d);
    case Create(token, user, profile) => CreateKeepsInv(s, ttl, token, user, profile);
    case GetStart(c, token, remove) =>
      if c !in s.calls {
        LookupIsMinted(s, ttl, token);
        CallKeepsInv(s, s', ttl, c);
      }
    case GetTtl(c) => if c in s.calls && s.calls[c].Reading? { TtlKeepsInv(s, ttl, c); }
    case GetRefresh(c) => if c in s.calls && s.calls[c].Refreshing? { RefreshKeepsInv(s, ttl, c); }
    case GetGoesOn(c) =>
      if c in s.calls && (s.calls[c].Reading? || s.calls[c].Refreshing?) {
        assert CallOk(s, ttl, s.calls[c]);
        CallKeepsInv(s, s', ttl, c);
      }
    case DeleteCommit(c) =>
      if c in s.calls && s.calls[c].Removing? {
        assert CallOk(s, ttl, s.calls[c]);
        RevokeKeepsInv(s, s', ttl, c, s.calls[c].user, {s.calls[c].token});
      }
    case RevokeStart(c, user, keep) =>
      if c !in s.calls {
        MembersAreMinted(s, ttl, user);
        CallKeepsInv(s, s', ttl, c);
      }
    case RevokeCommit(c) =>
      if c in s.calls && s.calls[c].Revoking? {
        assert CallOk(s, ttl, s.calls[c]);
        RevokeKeepsInv(s, s', ttl, c, s.calls[c].user, s.calls[c].members - {s.calls[c].keep});
      }
    case Abandon(c) => CallKeepsInv(s, s', ttl, c);
  }

  // ---- the theorems ------------------------------------------------------------------------

  /** Whatever the interleaving, every live session is in the set of the user it was minted for, that set
      expires a whole session lifetime later, and no set holds a token of another user. */
  lemma {:induction false} IndexCoversEveryRun(now: int, ttl: int, ops: seq<Op>)
    ensures Inv(Run(Fresh(now), ttl, ops), ttl)
  {
    if ops != [] {
      IndexCoversEveryRun(now, ttl, ops[..|ops| - 1]);
      StepKeepsInv(Run(Fresh(now), ttl, ops[..|ops| - 1]), ttl, ops[|ops| - 1]);
    }
  }

  lemma {:induction false} RunKeepsInv(s: System, ttl: int, ops: seq<Op>)
    requires Inv(s, ttl)
    ensures Inv(Run(s, ttl, ops), ttl)
  {
    if ops != [] {
      RunKeepsInv(s, ttl, ops[..|ops| - 1]);
      StepKeepsInv(Run(s, ttl, ops[..|ops| - 1]), ttl, ops[|ops| - 1]);
    }
  }

  lemma NoRevival(s: System, ttl: int, op: Op, t: Token)
    requires t in s.minted && t !in s.store.sessions
    ensures t in Step(s, ttl, op).minted && t !in Step(s, ttl, op).store.sessions
  {
    if op.GetTtl? {
      var c := op.call;
      assert c in s.calls && s.calls[c].Reading? ==> AnswerTtl(s, ttl, c).store == s.store;
    }
  }

  /** Nothing brings a session back: a refresh of an absent key is no refresh and tokens are never reused. */
  lemma {:induction false} DeadStaysDead(s: System, ttl: int, ops: seq<Op>, t: Token)
    requires t in s.minted && t !in s.store.sessions
    ensures t in Run(s, ttl, ops).minted && t !in Run(s, ttl, ops).store.sessions
  {
    if ops != [] {
      DeadStaysDead(s, ttl, ops[..|ops| - 1], t);
      NoRevival(Run(s, ttl, ops[..|ops| - 1]), ttl, ops[|ops| - 1], t);
    }
  }

  lemma StepKeepsSnapshot(s: System, ttl: int, op: Op, c: CallId)
    requires c in s.calls && (s.calls[c].Revoking? || s.calls[c].Over?)
    ensures c in Step(s, ttl, op).calls && Step(s, ttl, op).calls[c] in {s.calls[c], Over}
  {
    hide Created, Refreshed, Revoked, Lookup, Members;
  }

  /** A call that has taken its snapshot keeps it until it commits or is abandoned. */
  lemma {:induction false} SnapshotKept(s: System, ttl: int, ops: seq<Op>, c: CallId)
    requires c in s.calls && s.calls[c].Revoking?
    ensures c in Run(s, ttl, ops).calls && Run(s, ttl, ops).calls[c] in {s.calls[c], Over}
  {
    hide Step;
    if ops != [] {
      SnapshotKept(s, ttl, ops[..|ops| - 1], c);
      StepKeepsSnapshot(Run(s, ttl, ops[..|ops| - 1]), ttl, ops[|ops| - 1], c);
    }
  }

  lemma StepKeepsMinted(s: System, ttl: int, op: Op, t: Token)
    requires t in s.minted
    ensures t in Step(s, ttl, op).minted && Step(s, ttl, op).minted[t] == s.minted[t]
    ensures t in s.profiles ==> t in Step(s, ttl, op).profiles && Step(s, ttl, op).profiles[t] == s.profiles[t]
  {
    hide Created, Refreshed, Revoked, Lookup, Members;
  }

  lemma {:induction false} MintedGrows(s: System, ttl: int, ops: seq<Op>, t: Token)
    requires t in s.minted
    ensures t in Run(s, ttl, ops).minted && Run(s, ttl, ops).minted[t] == s.minted[t]
    ensures t in s.profiles ==> t in Run(s, ttl, ops).profiles && Run(s, ttl, ops).profiles[t] == s.profiles[t]
  {
    hide Step;
    if ops != [] {
      MintedGrows(s, ttl, ops[..|ops| - 1], t);
      StepKeepsMinted(Run(s, ttl, ops[..|ops| - 1]), ttl, ops[|ops| - 1], t);
    }
  }

  /** Whatever runs before and after a session is created: as long as it is live it is read with exactly the
      user and the profile it was created with, field by field, refreshes included. */
  lemma ReadsAreWhatWasCreated(now: int, ttl: int, before: seq<Op>, token: Token, user: UserId,
                                profile: Profile, after: seq<Op>)
    requires token != "" && token !in Run(Fresh(now), ttl, before).minted
    requires var s := Run(Step(Run(Fresh(now), ttl, before), ttl, Create(token, user, profile)), ttl, after);
             token in s.store.sessions
    ensures var s := Run(Step(Run(Fresh(now), ttl, before), ttl, Create(token, user, profile)), ttl, after);
            var found := Lookup(s.store, token);
            && found.Ok? && found.value.token == token && found.value.user == user
            && found.value.profile.role == profile.role && found.value.profile.createdAt == profile.createdAt
            && found.value.profile.ip == profile.ip && found.value.profile.ua == profile.ua
  {
    hide Run;
    var s0 := Run(Fresh(now), ttl, before);
    var s1 := Step(s0, ttl, Create(token, user, profile));
    IndexCoversEveryRun(now, ttl, before);
    StepKeepsInv(s0, ttl, Create(token, user, profile));
    RunKeepsInv(s1, ttl, after);
    MintedGrows(s1, ttl, after, token);
  }

  predicate Pending(s: System, c: CallId) {
    c in s.calls && s.calls[c].Revoking?
  }

  /** The state in which DeleteAllForUser commits: `before` when SMEMBERS ran, then any steps of any calls. */
  function AtCommit(before: System, ttl: int, c: CallId, user: UserId, keep: Token, between: seq<Op>): System {
    Run(Step(before, ttl, RevokeStart(c, user, keep)), ttl, between)
  }

  /** Bulk revocation misses nothing: every session of the user that was live at SMEMBERS, except the kept
      one, is dead from the commit on, whatever ran in between and whatever runs afterwards, including a Get
      that had read the session and only now issues its refresh. */
  lemma RevokedForGood(before: System, ttl: int, c: CallId, user: UserId, keep: Token,
                       between: seq<Op>, after: seq<Op>, t: Token)
    requires Inv(before, ttl) && c !in before.calls
    requires t in before.store.sessions && before.store.sessions[t].user == user && t != keep
    requires Pending(AtCommit(before, ttl, c, user, keep, between), c)
    ensures t !in Run(Step(AtCommit(before, ttl, c, user, keep, between), ttl, RevokeCommit(c)), ttl,
                      after).store.sessions
  {
    var started := Step(before, ttl, RevokeStart(c, user, keep));
    var pending := AtCommit(before, ttl, c, user, keep, between);
    assert Covered(before.store, ttl, t);
    SnapshotKept(started, ttl, between, c);
    MintedGrows(started, ttl, between, t);
    DeadStaysDead(Step(pending, ttl, RevokeCommit(c)), ttl, after, t);
  }

  lemma SnapshotAtCommit(before: System, ttl: int, c: CallId, user: UserId, keep: Token, between: seq<Op>)
    requires c !in before.calls && Pending(AtCommit(before, ttl, c, user, keep, between), c)
    ensures AtCommit(before, ttl, c, user, keep, between).calls[c] == Revoking(user, keep, Members(before.store, user))
  {
    hide Run, Members;
    SnapshotKept(Step(before, ttl, RevokeStart(c, user, keep)), ttl, between, c);
  }

  lemma CommitSpares(s: System, ttl: int, c: CallId, t: Token)
    requires Pending(s, c) && t in s.store.sessions
    ensures t in Step(s, ttl, RevokeCommit(c)).store.sessions <==> t !in s.calls[c].members - {s.calls[c].keep}
  {
    hide Revoked;
    RevokedExactly(s.store, s.calls[c].user, s.calls[c].members - {s.calls[c].keep});
  }

  /** Of the tokens minted for a user, those of live sessions are in the set, and no unminted token is. */
  lemma MembersExactly(s: System, ttl: int, user: UserId, t: Token)
    requires Inv(s, ttl)
    ensures t in s.store.sessions && MintedFor(s.minted, t, user) ==> t in Members(s.store, user)
    ensures t in s.store.sessions ==> MintedFor(s.minted, t, s.store.sessions[t].user)
    ensures t !in s.minted ==> t !in Members(s.store, user)
  {
    hide CallOk, HistoryOk, IndexTimed;
    if t in s.store.sessions {
      assert Covered(s.store, ttl, t);
    }
  }

  /** Exactly which of the user's sessions survive the commit: the kept one, and those that did not exist
      when SMEMBERS ran. */
  lemma RevokeSparesExactly(before: System, ttl: int, c: CallId, user: UserId, keep: Token, between: seq<Op>, t: Token)
    requires Inv(before, ttl) && c !in before.calls
    requires Pending(AtCommit(before, ttl, c, user, keep, between), c)
    requires t in AtCommit(before, ttl, c, user, keep, between).store.sessions
    requires AtCommit(before, ttl, c, user, keep, between).store.sessions[t].user == user
    ensures t in Step(AtCommit(before, ttl, c, user, keep, between), ttl, RevokeCommit(c)).store.sessions
       <==> t == keep || t !in before.minted
  {
    hide Step, Run, Inv, Members;
    var started := Step(before, ttl, RevokeStart(c, user, keep));
    var s := AtCommit(before, ttl, c, user, keep, between);
    SnapshotAtCommit(before, ttl, c, user, keep, between);
    CommitSpares(s, ttl, c, t);
    StepKeepsInv(before, ttl, RevokeStart(c, user, keep));
    RunKeepsInv(started, ttl, between);
    MembersExactly(s, ttl, user, t);
    MembersExactly(before, ttl, user, t);
    StartChangesNothing(before, ttl, c, user, keep);
    if t in before.minted {
      MintedGrows(started, ttl, between, t);
      if t !in before.store.sessions {
        DeadStaysDead(started, ttl, between, t);
      }
    }
  }

  lemma StartChangesNothing(s: System, ttl: int, c: CallId, user: UserId, keep: Token)
    ensures var s' := Step(s, ttl, RevokeStart(c, user, keep)); s'.store == s.store && s'.minted == s.minted
  {
  }

  /** So a session created between the two round trips always survives. */
  lemma CreatedMeanwhileSurvives(before: System, ttl: int, c: CallId, user: UserId, keep: Token, t: Token,
                                 profile: Profile)
    requires Inv(before, ttl) && c !in before.calls && 0 < ttl && t !in before.minted && t != ""
    ensures var s := AtCommit(before, ttl, c, user, keep, [Create(t, user, profile)]);
            && Pending(s, c) && t in s.store.sessions && s.store.sessions[t].user == user
            && t in Step(s, ttl, RevokeCommit(c)).store.sessions
  {
    hide Inv;
    var started := Step(before, ttl, RevokeStart(c, user, keep));
    RunSnoc(started, ttl, [], Create(t, user, profile));
    assert [] + [Create(t, user, profile)] == [Create(t, user, profile)];
    RevokeSparesExactly(before, ttl, c, user, keep, [Create(t, user, profile)], t);
  }

  /** Revoking one user's sessions touches nothing of anybody else's: neither sessions nor sets. */
  lemma RevokeLeavesOthers(now: int, ttl: int, ops: seq<Op>, c: CallId, t: Token, other: UserId)
    requires Pending(Run(Fresh(now), ttl, ops), c) && other != Run(Fresh(now), ttl, ops).calls[c].user
    ensures var s := Run(Fresh(now), ttl, ops);
            var st, st' := s.store, Step(s, ttl, RevokeCommit(c)).store;
            && (t in st.sessions && st.sessions[t].user == other
                ==> t in st'.sessions && st'.sessions[t] == st.sessions[t])
            && (other in st.index <==> other in st'.index)
            && (other in st.index ==> st'.index[other] == st.index[other])
  {
    IndexCoversEveryRun(now, ttl, ops);
    var s := Run(Fresh(now), ttl, ops);
    assert CallOk(s, ttl, s.calls[c]);
  }

  /** The session was never deleted and, at every moment of the run since it was created, less than half a
      lifetime had passed since a Get last left it with at least half of one. */
  predicate ReadOften(s: System, ttl: int, ops: seq<Op>, t: Token) {
    forall k | 0 <= k <= |ops| ::
      var r := Run(s, ttl, ops[..k]);
      t in r.minted && t in r.keptAt ==> t !in r.deleted && r.store.now < r.keptAt[t] + ttl / 2
  }

  predicate KeptAlive(s: System, ttl: int, t: Token) {
    t in s.minted && t in s.keptAt ==>
      t in s.store.sessions && s.store.sessions[t].expires.At?
          && s.keptAt[t] + ttl / 2 <= s.store.sessions[t].expires.time
  }

  lemma TtlKeepsAlive(s: System, ttl: int, c: CallId, t: Token)
    requires Inv(s, ttl) && KeptAlive(s, ttl, t) && c in s.calls && s.calls[c].Reading?
    ensures KeptAlive(AnswerTtl(s, ttl, c), ttl, t)
  {
    if s.calls[c].token == t && t in s.store.sessions {
      assert Covered(s.store, ttl, t);
    }
  }

  lemma StepKeepsAlive(s: System, ttl: int, op: Op, t: Token)
    requires Inv(s, ttl) && KeptAlive(s, ttl, t)
    requires var s' := Step(s, ttl, op);
             t in s'.minted && t in s'.keptAt ==> t !in s'.deleted && s'.store.now < s'.keptAt[t] + ttl / 2
    ensures KeptAlive(Step(s, ttl, op), ttl, t)
  {
    hide Covered, IndexTimed, CallOk, Indexed, Members, RefreshDue;
    if op.GetTtl? {
      if op.call in s.calls && s.calls[op.call].Reading? {
        TtlKeepsAlive(s, ttl, op.call, t);
      }
    } else {
      hide AnswerTtl;
      assert HistoryOk(s, ttl);
    }
  }

  /** The sliding lifetime: a session that is read often enough is live at the end of a run of any length. */
  lemma {:induction false} ReadOftenStaysLive(now: int, ttl: int, ops: seq<Op>, t: Token)
    requires ReadOften(Fresh(now), ttl, ops, t)
    ensures KeptAlive(Run(Fresh(now), ttl, ops), ttl, t)
    ensures t in Run(Fresh(now), ttl, ops).minted ==> t in Run(Fresh(now), ttl, ops).store.sessions
  {
    IndexCoversEveryRun(now, ttl, ops);
    if ops != [] {
      var init, last := ops[..|ops| - 1], ops[|ops| - 1];
      forall k | 0 <= k <= |init|
        ensures init[..k] == ops[..k]
      {
      }
      ReadOftenStaysLive(now, ttl, init, t);
      IndexCoversEveryRun(now, ttl, init);
      assert ops[..|ops|] == ops;
      StepKeepsAlive(Run(Fresh(now), ttl, init), ttl, last, t);
    }
  }

  /** A refresh comes more than half a lifetime after the one before it if that one was done before this call
      asked for the TTL, and only if, unless this call takes more than half a lifetime to send its refresh. */
  lemma RefreshesApart(now: int, ttl: int, ops: seq<Op>, c: CallId)
    requires var s := Run(Fresh(now), ttl, ops);
             c in s.calls && s.calls[c].Refreshing? && s.calls[c].token in s.store.sessions
    ensures var s := Run(Fresh(now), ttl, ops);
            var t := s.calls[c].token;
            && t in s.refreshedAt && Step(s, ttl, GetRefresh(c)).refreshedAt == s.refreshedAt[t := s.store.now]
            && (s.refreshedAt[t] < s.calls[c].readAt ==> s.store.now - s.refreshedAt[t] > ttl / 2)
            && (s.store.now - s.calls[c].readAt <= ttl / 2 ==>
                  (s.store.now - s.refreshedAt[t] > ttl / 2 <==> s.refreshedAt[t] < s.calls[c].readAt))
  {
    IndexCoversEveryRun(now, ttl, ops);
    var s := Run(Fresh(now), ttl, ops);
    assert CallOk(s, ttl, s.calls[c]);
    assert Covered(s.store, ttl, s.calls[c].token);
  }

  /** Without that proviso the two can come at the same instant: it happens to any two calls that read the
      session when a refresh is due and both get their TTL answer before either refreshes. */
  lemma OverlappingGetsRefreshTogether(s: System, ttl: int, c: CallId, d: CallId)
    requires Inv(s, ttl) && c != d && c in s.calls && d in s.calls && s.calls[c].Reading? && s.calls[d].Reading?
    requires s.calls[c].token == s.calls[d].token && RefreshDue(ttl, TimeLeft(s.store, s.calls[c].token))
    ensures var t := s.calls[c].token;
            var s' := Step(Step(Step(s, ttl, GetTtl(c)), ttl, GetTtl(d)), ttl, GetRefresh(c));
            && d in s'.calls && s'.calls[d].Refreshing? && s'.calls[d].token == t && t in s'.store.sessions
            && t in s'.refreshedAt && s'.refreshedAt[t] == s'.store.now
            && Step(s', ttl, GetRefresh(d)).refreshedAt == s'.refreshedAt
  {
    var s1 := AnswerTtl(s, ttl, c);
    var s2 := AnswerTtl(s1, ttl, d);
    assert Step(Step(s, ttl, GetTtl(c)), ttl, GetTtl(d)) == s2;
    var s3 := Step(s2, ttl, GetRefresh(c));
    assert s3.calls[d] == s2.calls[d];
    assert s3.refreshedAt[s.calls[c].token := s3.store.now] == s3.refreshedAt;
  }

  /** Two such calls are in flight after a run from the start: a session is created, its lifetime but for one
      unit passes, and two Gets read it. */
  lemma OverlapIsReached(now: int, ttl: int, token: Token, user: UserId, profile: Profile)
    requires ttl >= 4 && token != ""
    ensures var s := Run(Fresh(now), ttl,
                         [Create(token, user, profile), Tick(ttl - 1), GetStart(0, token, false),
                          GetStart(1, token, false)]);
            && Inv(s, ttl) && 0 in s.calls && 1 in s.calls && s.calls[0].Reading? && s.calls[1].Reading?
            && s.calls[0].token == s.calls[1].token == token && RefreshDue(ttl, TimeLeft(s.store, token))
  {
    hide Inv, Run, Indexed;
    var a, b, c, d := Create(token, user, profile), Tick(ttl - 1), GetStart(0, token, false), GetStart(1, token, false);
    IndexCoversEveryRun(now, ttl, [a, b, c, d]);
    RunFour(Fresh(now), ttl, a, b, c, d);
    var s1 := Step(Fresh(now), ttl, a);
    assert token in s1.store.sessions && s1.store.sessions[token] == SessionKey(user, profile, At(now + ttl));
    var s2 := Step(s1, ttl, b);
    assert token in s2.store.sessions && s2.store.sessions[token] == s1.store.sessions[token]
        && s2.store.now == now + ttl - 1;
    var s3 := Step(s2, ttl, c);
    assert s3.store == s2.store && s3.calls == map[0 := Reading(token, user, false)];
  }

  lemma RunFour(s: System, ttl: int, a: Op, b: Op, c: Op, d: Op)
    ensures Run(s, ttl, [a, b, c, d]) == Step(Step(Step(Step(s, ttl, a), ttl, b), ttl, c), ttl, d)
  {
    hide Step;
    RunSnoc(s, ttl, [a, b, c], d);
    RunSnoc(s, ttl, [a, b], c);
    RunSnoc(s, ttl, [a], b);
    RunSnoc(s, ttl, [], a);
    assert [] + [a] == [a] && [a] + [b] == [a, b] && [a, b] + [c] == [a, b, c] && [a, b, c] + [d] == [a, b, c, d];
  }

  lemma RunSnoc(s: System, ttl: int, ops: seq<Op>, op: Op)
    ensures Run(s, ttl, ops + [op]) == Step(Run(s, ttl, ops), ttl, op)
  {
    assert (ops + [op])[..|ops|] == ops;
  }

  /** With nothing in between, the steps of a Delete and of a bulk revocation amount to the methods, too. */
  lemma DeleteStepsAreDelete(s: System, ttl: int, c: CallId, t: Token)
    requires c !in s.calls
    ensures var s1 := Step(Step(Step(s, ttl, GetStart(c, t, true)), ttl, GetTtl(c)), ttl, GetRefresh(c));
            var found := Lookup(s.store, t);
            Step(s1, ttl, DeleteCommit(c)).store
            == if found.Ok? then Revoked(Touched(s.store, ttl, t), found.value.user, {t}) else s.store
  {
    hide Revoked, Refreshed;
    var s1 := Step(s, ttl, GetStart(c, t, true));
    if Lookup(s.store, t).Ok? {
      assert Step(s1, ttl, GetTtl(c)) == AnswerTtl(s1, ttl, c);
    } else {
      assert s1.calls[c].Over?;
    }
  }

  lemma RevokeStepsAreDeleteAllForUser(s: System, ttl: int, c: CallId, user: UserId, keep: Token)
    requires c !in s.calls
    ensures Step(Step(s, ttl, RevokeStart(c, user, keep)), ttl, RevokeCommit(c)).store
         == Revoked(s.store, user, Members(s.store, user) - {keep})
  {
    hide Revoked, Members;
  }

  /** With nothing in between, the steps of a Get amount to the method Get. */
  lemma GetStepsAreGet(s: System, ttl: int, c: CallId, t: Token)
    requires c !in s.calls
    ensures Step(Step(Step(s, ttl, GetStart(c, t, false)), ttl, GetTtl(c)), ttl, GetRefresh(c)).store
        == Touched(s.store, ttl, t)
  {
    var s1 := Step(s, ttl, GetStart(c, t, false));
    assert Lookup(s.store, t).Ok? ==> Step(s1, ttl, GetTtl(c)) == AnswerTtl(s1, ttl, c);
  }
}
