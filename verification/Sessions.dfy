/**
 The session store: its pipelines, what each of them does to the keyspace, and the class whose methods
 issue them.
 */
module Sessions {
  import opened Wrappers
  import opened Keyspace

  datatype Session = Session(token: Token, user: UserId, profile: Profile)

  datatype Error = NoSession

  // ---- what each pipeline does -------------------------------------------------------------

  /** The user's set after `token` is added to it and its lifetime is set to two session lifetimes. */
  function Indexed(s: Store, ttl: int, user: UserId, token: Token): map<UserId, IndexKey> {
    if ttl <= 0 then s.index - {user}
    else s.index[user := IndexKey(Members(s, user) + {token}, At(s.now + 2 * ttl))]
  }

  function Created(s: Store, ttl: int, token: Token, user: UserId, profile: Profile): Store {
    Store(s.now,
          if ttl <= 0 then s.sessions - {token}
          else s.sessions[token := SessionKey(user, profile, At(s.now + ttl))],
          Indexed(s, ttl, user, token))
  }

  function Refreshed(s: Store, ttl: int, token: Token, user: UserId): Store {
    Store(s.now,
          if token !in s.sessions then s.sessions
          else if ttl <= 0 then s.sessions - {token}
          else s.sessions[token := s.sessions[token].(expires := At(s.now + ttl))],
          Indexed(s, ttl, user, token))
  }

  /** Every session in `doomed` is gone and leaves the set of `user`. */
  function Revoked(s: Store, user: UserId, doomed: set<Token>): Store {
    var s' := s.(sessions := s.sessions - doomed);
    if doomed == {} || user !in s.index then s' else SetMembers(s', user, s.index[user].members - doomed)
  }

  /** What TTL answers for the session; no positive number when it is absent or never expires. */
  function TimeLeft(s: Store, token: Token): int {
    if token in s.sessions && s.sessions[token].expires.At? then s.sessions[token].expires.time - s.now else -1
  }

  predicate RefreshDue(ttl: int, left: int) {
    0 < left < ttl / 2
  }

  function Lookup(s: Store, token: Token): Result<Session, Error> {
    if token == "" || token !in s.sessions then Err(NoSession)
    else Ok(Session(token, s.sessions[token].user, s.sessions[token].profile))
  }

  /** The keyspace after an undisturbed Get. */
  function Touched(s: Store, ttl: int, token: Token): Store {
    if Lookup(s, token).Ok? && RefreshDue(ttl, TimeLeft(s, token))
    then Refreshed(s, ttl, token, s.sessions[token].user)
    else s
  }

  /** SADD and EXPIRE of the user's set. */
  lemma IndexEffect(s: Store, ttl: int, token: Token, user: UserId)
    ensures Apply(Apply(s, SAdd(user, token)), ExpireIndex(user, ttl * 2)) == s.(index := Indexed(s, ttl, user, token))
  {
    assert {} + {token} == {token};
    var s' := Apply(Apply(s, SAdd(user, token)), ExpireIndex(user, ttl * 2));
    assert s'.index == Indexed(s, ttl, user, token);
  }

  lemma RefreshEffect(s: Store, ttl: int, token: Token, user: UserId)
    ensures Exec(s, [ExpireSession(token, ttl), SAdd(user, token), ExpireIndex(user, ttl * 2)])
         == Refreshed(s, ttl, token, user)
  {
    hide Exec, Indexed;
    ExecThree(s, ExpireSession(token, ttl), SAdd(user, token), ExpireIndex(user, ttl * 2));
    var s1 := Apply(s, ExpireSession(token, ttl));
    IndexEffect(s1, ttl, token, user);
    SameIndexed(s, s1, ttl, user, token);
  }

  lemma SameIndexed(s: Store, s': Store, ttl: int, user: UserId, token: Token)
    requires s'.index == s.index && s'.now == s.now
    ensures Indexed(s', ttl, user, token) == Indexed(s, ttl, user, token)
  {
  }

  lemma CreateEffect(s: Store, ttl: int, token: Token, user: UserId, profile: Profile)
    ensures Exec(s,
                 [HSet(token, user, profile), ExpireSession(token, ttl), SAdd(user, token), ExpireIndex(user, ttl * 2)])
         == Created(s, ttl, token, user, profile)
  {
    hide Exec, Indexed;
    var a, b, c, d := HSet(token, user, profile), ExpireSession(token, ttl), SAdd(user, token),
        ExpireIndex(user, ttl * 2);
    ExecThree(s, a, b, c);
    ExecSnoc(s, [a, b, c], d);
    assert [a, b, c] + [d] == [a, b, c, d];
    var s2 := Apply(Apply(s, a), b);
    IndexEffect(s2, ttl, token, user);
    SameIndexed(s, s2, ttl, user, token);
    assert s2.sessions == Created(s, ttl, token, user, profile).sessions;
  }

  /** One more DEL/SREM pair of a revocation. */
  lemma RevokeOneMore(s: Store, user: UserId, pipe: seq<Command>, doomed: set<Token>, token: Token)
    requires Exec(s, pipe) == Revoked(s, user, doomed)
    ensures Exec(s, pipe + [Del(token), SRem(user, token)]) == Revoked(s, user, doomed + {token})
  {
    ExecSnoc(s, pipe, Del(token));
    ExecSnoc(s, pipe + [Del(token)], SRem(user, token));
    assert pipe + [Del(token)] + [SRem(user, token)] == pipe + [Del(token), SRem(user, token)];
    assert s.sessions - doomed - {token} == s.sessions - (doomed + {token});
    if user in s.index {
      var m := s.index[user].members;
      assert m - doomed - {token} == m - (doomed + {token});
      assert doomed == {} ==> m - {token} == m - (doomed + {token});
      assert m - doomed == {} ==> m - (doomed + {token}) == {};
    }
    assert Apply(Apply(Exec(s, pipe), Del(token)), SRem(user, token)).index == Revoked(s, user, doomed + {token}).index;
  }

  /** What a revocation does, session by session and set by set. */
  lemma RevokedExactly(s: Store, user: UserId, doomed: set<Token>)
    ensures var s' := Revoked(s, user, doomed);
            && s'.now == s.now
            && (forall t :: t in s'.sessions <==> t in s.sessions && t !in doomed)
            && (forall t <- s'.sessions :: s'.sessions[t] == s.sessions[t])
            && Members(s', user) == Members(s, user) - doomed
            && (forall u | u != user :: u in s'.index <==> u in s.index)
            && (forall u | u != user && u in s.index :: s'.index[u] == s.index[u])
  {
    assert user in s.index && doomed == {} ==> Members(s, user) - doomed == Members(s, user);
  }

  /** A created session is read back field by field; so is one that a refresh kept alive. */
  lemma ReadsBackWhatWasCreated(s: Store, ttl: int, token: Token, user: UserId, profile: Profile)
    requires 0 < ttl && token != ""
    ensures var found := Lookup(Created(s, ttl, token, user, profile), token);
            && found.Ok? && found.value.token == token && found.value.user == user
            && found.value.profile.role == profile.role && found.value.profile.createdAt == profile.createdAt
            && found.value.profile.ip == profile.ip && found.value.profile.ua == profile.ua
    ensures Lookup(Refreshed(Created(s, ttl, token, user, profile), ttl, token, user), token)
         == Lookup(Created(s, ttl, token, user, profile), token)
  {
  }

  // ---- the store ---------------------------------------------------------------------------

  class SessionStore {
    const ttl: int
    var rdb: Store

    constructor (rdb: Store, ttl: int)
      ensures this.rdb == rdb && this.ttl == ttl
    {
      this.rdb := rdb;
      this.ttl := ttl;
    }

    /** Stores and indexes a session under a freshly drawn token, in one pipeline. */
    method Create(token: Token, user: UserId, profile: Profile) returns (sess: Session)
      modifies this
      ensures rdb == Created(old(rdb), ttl, token, user, profile)
      ensures sess == Session(token, user, profile)
      ensures 0 < ttl ==>
                && rdb.sessions == old(rdb).sessions[token := SessionKey(user, profile, At(old(rdb).now + ttl))]
                && token in Members(rdb, user) && rdb.index[user].expires == At(old(rdb).now + 2 * ttl)
    {
      sess := Session(token, user, profile);
      CreateEffect(rdb, ttl, token, user, profile);
      rdb := Exec(rdb, [HSet(token, user, profile), ExpireSession(token, ttl),
                        SAdd(user, token), ExpireIndex(user, ttl * 2)]);
    }

    /** Resolves a token; refreshes the session and its index entry when less than half is left. */
    method Get(token: Token) returns (r: Result<Session, Error>)
      modifies this
      ensures r == Lookup(old(rdb), token)
      ensures r.Ok? <==> token != "" && token in old(rdb).sessions
      ensures r.Ok? ==>
                var key := old(rdb).sessions[token];
                && r.value.token == token && r.value.user == key.user
                && r.value.profile.role == key.profile.role && r.value.profile.createdAt == key.profile.createdAt
                && r.value.profile.ip == key.profile.ip && r.value.profile.ua == key.profile.ua
      ensures rdb == Touched(old(rdb), ttl, token)
    {
      if token == "" || token !in rdb.sessions {
        return Err(NoSession);
      }
      var vals := rdb.sessions[token];
      var left := TimeLeft(rdb, token);
      if RefreshDue(ttl, left) {
        RefreshEffect(rdb, ttl, token, vals.user);
        rdb := Exec(rdb, [ExpireSession(token, ttl), SAdd(vals.user, token), ExpireIndex(vals.user, ttl * 2)]);
      }
      r := Ok(Session(token, vals.user, vals.profile));
    }

    /** Revokes one session; a token that names no session is not an error. */
    method Delete(token: Token)
      modifies this
      ensures var found := Lookup(old(rdb), token);
              rdb == if found.Ok? then Revoked(Touched(old(rdb), ttl, token), found.value.user, {token}) else old(rdb)
      ensures token != "" ==> token !in rdb.sessions
      ensures token != "" && token in old(rdb).sessions ==> token !in Members(rdb, old(rdb).sessions[token].user)
    {
      var sess := Get(token);
      if sess.Ok? {
        ghost var before := rdb;
        rdb := Exec(rdb, [Del(token), SRem(sess.value.user, token)]);
        RevokeOneMore(before, sess.value.user, [], {}, token);
        assert [] + [Del(token), SRem(sess.value.user, token)] == [Del(token), SRem(sess.value.user, token)];
        assert {} + {token} == {token};
        assert before.sessions - {} == before.sessions;
        RevokedExactly(before, sess.value.user, {token});
      }
    }

    /** Revokes every session in the user's set but `keepToken`, in whatever order SMEMBERS lists them. */
    method DeleteAllForUser(user: UserId, keepToken: Token)
      modifies this
      ensures rdb == Revoked(old(rdb), user, Members(old(rdb), user) - {keepToken})
      ensures forall t :: t in rdb.sessions <==>
                            t in old(rdb).sessions && (t == keepToken || t !in Members(old(rdb), user))
      ensures forall t <- rdb.sessions :: rdb.sessions[t] == old(rdb).sessions[t]
      ensures Members(rdb, user) == Members(old(rdb), user) * {keepToken}
    {
      var tokens := Members(rdb, user);
      var pipe: seq<Command> := [];
      var rest := tokens;
      assert rdb.sessions - {} == rdb.sessions;
      assert tokens - rest - {keepToken} == {};
      while rest != {}
        invariant rest <= tokens && rdb == old(rdb)
        invariant Exec(rdb, pipe) == Revoked(rdb, user, tokens - rest - {keepToken})
        decreases rest
      {
        var t :| t in rest;
        if t != keepToken {
          RevokeOneMore(rdb, user, pipe, tokens - rest - {keepToken}, t);
          pipe := pipe + [Del(t), SRem(user, t)];
        }
        assert tokens - (rest - {t}) - {keepToken}
            == if t == keepToken then tokens - rest - {keepToken} else tokens - rest - {keepToken} + {t};
        rest := rest - {t};
      }
      assert tokens - {} == tokens;
      RevokedExactly(rdb, user, tokens - {keepToken});
      rdb := Exec(rdb, pipe);
    }
  }
}
