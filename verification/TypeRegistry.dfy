/**
 The registry of challenge types: a map that is never changed in place, replaced under a writer lock, with
 built-in entries that an override hides and a deregistration brings back.
 */
module TypeRegistry {
  import opened Wrappers

  type TypeId = string

  /** A type, with some token that tells implementations with the same id apart. */
  datatype ChallengeType = ChallengeType(id: TypeId, implementation: nat)

  datatype Entry = Entry(ct: ChallengeType, protected: bool)

  type Types = map<TypeId, Entry>

  datatype Op =
    | Register(id: TypeId, ct: ChallengeType, override: bool)
    | Deregister(id: TypeId)

  /** The registry's answer to a lookup. */
  function Lookup(m: Types, id: TypeId): Option<ChallengeType> {
    if id in m then Some(m[id].ct) else None
  }

  predicate Refused(m: Types, id: TypeId, override: bool) {
    id in m && m[id].protected && !override
  }

  function Without(m: Types, id: TypeId): Types {
    map k <- m | k != id :: m[k]
  }

  /** What one write makes of the map. */
  function Applied(base: Types, m: Types, op: Op): Types {
    match op
    case Register(id, ct, override) =>
      if Refused(m, id, override) then m else m[id := Entry(ct, id in m && m[id].protected)]
    case Deregister(id) =>
      if id !in m then m
      else if id in base then Without(m, id)[id := base[id]]
      else Without(m, id)
  }

  function Replay(base: Types, ops: seq<Op>): Types {
    if ops == [] then base else Applied(base, Replay(base, ops[..|ops| - 1]), ops[|ops| - 1])
  }

  lemma ReplaySnoc(base: Types, log: seq<Op>, op: Op)
    ensures Replay(base, log + [op]) == Applied(base, Replay(base, log), op)
  {
    assert (log + [op])[..|log|] == log;
  }

  predicate Builtins(base: Types) {
    forall id <- base :: base[id].protected
  }

  /** What the log says of one id, without any map: the last operation on it that counts decides, and a
      registration of a built-in id counts only with the override. */
  function Latest(base: Types, ops: seq<Op>, id: TypeId): Option<ChallengeType> {
    if ops == [] then Lookup(base, id)
    else
      var before, last := ops[..|ops| - 1], ops[|ops| - 1];
      if last.id != id then Latest(base, before, id)
      else match last
           case Deregister(_) => Lookup(base, id)
           case Register(_, ct, override) => if id in base && !override then Latest(base, before, id) else Some(ct)
  }

  /** The registry refines its log: every id resolves to what the log says of it, an entry is protected
      exactly when its id is a built-in one, and every built-in id resolves. */
  lemma {:induction false} ReplayFollowsTheLog(base: Types, ops: seq<Op>, id: TypeId)
    requires Builtins(base)
    ensures var m := Replay(base, ops);
            && Lookup(m, id) == Latest(base, ops, id)
            && (id in m ==> (m[id].protected <==> id in base))
            && (id in base ==> id in m)
  {
    if ops != [] {
      ReplayFollowsTheLog(base, ops[..|ops| - 1], id);
    }
  }

  /** Deregistering twice, or a built-in that nothing overrides, changes nothing. */
  lemma DeregisterIsIdempotent(base: Types, ops: seq<Op>, id: TypeId)
    requires Builtins(base)
    ensures Replay(base, ops + [Deregister(id), Deregister(id)]) == Replay(base, ops + [Deregister(id)])
    ensures id in base && Latest(base, ops, id) == Lookup(base, id)
        ==> Replay(base, ops + [Deregister(id)]) == Replay(base, ops)
  {
    var one, two := ops + [Deregister(id)], ops + [Deregister(id), Deregister(id)];
    assert one[..|one| - 1] == ops && two[..|two| - 1] == one;
    ReplayFollowsTheLog(base, ops, id);
  }

  class TypeRegistry {
    var m: Types
    const base: Types
    /** Every write asked for so far, refused ones included. */
    ghost var log: seq<Op>

    ghost predicate Valid()
      reads this
    {
      Builtins(base) && m == Replay(base, log)
    }

    /** Registers the given types as protected; of two with the same id the later one stays. */
    constructor (builtins: seq<ChallengeType>)
      ensures Valid() && log == [] && m == base
      ensures forall i | 0 <= i < |builtins| :: builtins[i].id in base
      ensures forall id <- base :: exists i ::
          && 0 <= i < |builtins| && builtins[i] == base[id].ct && builtins[i].id == id
          && forall j | i < j < |builtins| :: builtins[j].id != id
    {
      var initial: Types := map[];
      for n := 0 to |builtins|
        invariant Builtins(initial)
        invariant forall i | 0 <= i < n :: builtins[i].id in initial
        invariant forall id <- initial :: exists i ::
            && 0 <= i < n && builtins[i] == initial[id].ct && builtins[i].id == id
            && forall j | i < j < n :: builtins[j].id != id
      {
        initial := initial[builtins[n].id := Entry(builtins[n], true)];
      }
      base := initial;
      m := initial;
      log := [];
    }

    method Deregister(id: TypeId)
      requires Valid()
      modifies this`m, this`log
      ensures Valid() && log == old(log) + [Op.Deregister(id)]
      ensures m == Applied(base, old(m), Op.Deregister(id))
    {
      hide Replay;
      ReplaySnoc(base, log, Op.Deregister(id));
      log := log + [Op.Deregister(id)];
      if id !in m {
        return;
      }
      var next: Types := map[];
      var rest := m.Keys;
      while rest != {}
        invariant rest <= m.Keys && m == old(m) && log == old(log) + [Op.Deregister(id)]
        invariant next == map k <- m | k !in rest && k != id :: m[k]
      {
        var k :| k in rest;
        rest := rest - {k};
        if k != id {
          next := next[k := m[k]];
        }
      }
      assert next == Without(m, id);
      if id in base {
        next := next[id := base[id]];
      }
      m := next;
    }

    /** Refused exactly for a built-in id without the override. */
    method Register(id: TypeId, ct: ChallengeType, override: bool) returns (ok: bool)
      requires Valid()
      modifies this`m, this`log
      ensures Valid() && log == old(log) + [Op.Register(id, ct, override)]
      ensures ok <==> id !in base || override
      ensures m == Applied(base, old(m), Op.Register(id, ct, override))
    {
      hide Replay, Latest;
      ReplayFollowsTheLog(base, log, id);
      ReplaySnoc(base, log, Op.Register(id, ct, override));
      log := log + [Op.Register(id, ct, override)];
      if Refused(m, id, override) {
        return false;
      }
      var next: Types := map[];
      var rest := m.Keys;
      while rest != {}
        invariant rest <= m.Keys && m == old(m) && log == old(log) + [Op.Register(id, ct, override)]
        invariant next == map k <- m | k !in rest :: m[k]
      {
        var k :| k in rest;
        rest := rest - {k};
        next := next[k := m[k]];
      }
      assert next == m;
      next := next[id := Entry(ct, id in m && m[id].protected)];
      m := next;
      ok := true;
    }

    /** Answers what the log of writes says of the id. */
    method Get(id: TypeId) returns (ct: Option<ChallengeType>)
      requires Valid()
      ensures ct == Latest(base, log, id)
    {
      ReplayFollowsTheLog(base, log, id);
      ct := if id in m then Some(m[id].ct) else None;
    }

    method IsRegistered(id: TypeId) returns (yes: bool)
      requires Valid()
      ensures yes <==> Latest(base, log, id).Some?
    {
      ReplayFollowsTheLog(base, log, id);
      yes := id in m;
    }
  }
}
