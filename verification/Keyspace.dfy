/**
 The part of Redis the session store uses, as a value: one hash per session and one token set per
 user, each with its own expiry, and the commands of a MULTI/EXEC pipeline.

 A key that has reached its expiry is gone, so it is dropped when the clock moves (`Advance`) and a
 key that is present is a live key.
 */
module Keyspace {
  type Token = string

  type UserId = nat

  datatype Profile = Profile(role: string, createdAt: int, ip: string, ua: string)

  datatype Expiry = Never | At(time: int)

  datatype SessionKey = SessionKey(user: UserId, profile: Profile, expires: Expiry)

  datatype IndexKey = IndexKey(members: set<Token>, expires: Expiry)

  datatype Store = Store(now: int, sessions: map<Token, SessionKey>, index: map<UserId, IndexKey>)

  datatype Command =
    | HSet(token: Token, user: UserId, profile: Profile)
    | ExpireSession(token: Token, ttl: int)
    | Del(token: Token)
    | SAdd(user: UserId, token: Token)
    | SRem(user: UserId, token: Token)
    | ExpireIndex(user: UserId, ttl: int)

  function Members(s: Store, user: UserId): set<Token> {
    if user in s.index then s.index[user].members else {}
  }

  /** One command. EXPIRE of an absent key does nothing, EXPIRE with no time left deletes the key, and
      a set whose last member is removed is no longer a key. */
  function Apply(s: Store, c: Command): Store {
    match c
    case HSet(token, user, profile) =>
      var expires := if token in s.sessions then s.sessions[token].expires else Never;
      s.(sessions := s.sessions[token := SessionKey(user, profile, expires)])
    case ExpireSession(token, ttl) =>
      if token !in s.sessions then s
      else if ttl <= 0 then s.(sessions := s.sessions - {token})
      else s.(sessions := s.sessions[token := s.sessions[token].(expires := At(s.now + ttl))])
    case Del(token) =>
      s.(sessions := s.sessions - {token})
    case SAdd(user, token) =>
      if user in s.index then
        s.(index := s.index[user := s.index[user].(members := s.index[user].members + {token})])
      else
        s.(index := s.index[user := IndexKey({token}, Never)])
    case SRem(user, token) =>
      if user !in s.index then s else SetMembers(s, user, s.index[user].members - {token})
    case ExpireIndex(user, ttl) =>
      if user !in s.index then s
      else if ttl <= 0 then s.(index := s.index - {user})
      else s.(index := s.index[user := s.index[user].(expires := At(s.now + ttl))])
  }

  function SetMembers(s: Store, user: UserId, left: set<Token>): Store
    requires user in s.index
  {
    if left == {} then s.(index := s.index - {user})
    else s.(index := s.index[user := s.index[user].(members := left)])
  }

  /** A MULTI/EXEC pipeline: its commands in order, with nothing in between. */
  function Exec(s: Store, pipe: seq<Command>): Store {
    if pipe == [] then s
    else Apply(Exec(s, pipe[..|pipe| - 1]), pipe[|pipe| - 1])
  }

  lemma ExecSnoc(s: Store, pipe: seq<Command>, c: Command)
    ensures Exec(s, pipe + [c]) == Apply(Exec(s, pipe), c)
  {
    assert (pipe + [c])[..|pipe|] == pipe;
  }

  lemma ExecThree(s: Store, a: Command, b: Command, c: Command)
    ensures Exec(s, [a, b, c]) == Apply(Apply(Apply(s, a), b), c)
  {
    hide Apply;
    ExecSnoc(s, [], a);
    ExecSnoc(s, [a], b);
    ExecSnoc(s, [a, b], c);
    assert [] + [a] == [a] && [a] + [b] == [a, b] && [a, b] + [c] == [a, b, c];
  }

  /** `d` units of time pass; every key whose expiry is reached disappears. */
  function Advance(s: Store, d: nat): Store {
    var now := s.now + d;
    Store(now,
          map t | t in s.sessions && (s.sessions[t].expires.At? ==> now < s.sessions[t].expires.time) :: s.sessions[t],
          map u | u in s.index && (s.index[u].expires.At? ==> now < s.index[u].expires.time) :: s.index[u])
  }
}
