/** Writers that contend for the registry's lock and readers that take none. */
module TypeRegistryRuns {
  import opened Wrappers
  import opened TypeRegistry

  type WriterId = nat

  /** A writer holds the lock from before it loads the map until after it has stored its copy. */
  datatype Writer = Locked(op: Op) | HasLoaded(op: Op, seen: Types) | Stored

  /** `log` is history: the writes in the order of their stores. */
  datatype System = System(
    base: Types, m: Types, log: seq<Op>,
    lock: Option<WriterId>, writers: map<WriterId, Writer>, readings: map<nat, Types>)

  datatype Event =
    | Lock(w: WriterId, op: Op)
    | Load(w: WriterId)
    | Store(w: WriterId)
    | Unlock(w: WriterId)
    | Read(r: nat)

  function Fresh(base: Types): System {
    System(base, base, [], None, map[], map[])
  }

  function Step(s: System, e: Event): System {
    match e
    case Lock(w, op) =>
      if s.lock.None? && w !in s.writers then s.(lock := Some(w), writers := s.writers[w := Locked(op)]) else s
    case Load(w) =>
      if w in s.writers && s.writers[w].Locked? then s.(writers := s.writers[w := HasLoaded(s.writers[w].op, s.m)])
        else s
    case Store(w) =>
      if w in s.writers && s.writers[w].HasLoaded? then
        s.(m := Applied(s.base, s.writers[w].seen, s.writers[w].op), log := s.log + [s.writers[w].op],
           writers := s.writers[w := Stored])
      else s
    case Unlock(w) =>
      if w in s.writers && s.writers[w].Stored? && s.lock == Some(w) then s.(lock := None) else s
    case Read(r) =>
      s.(readings := s.readings[r := s.m])
  }

  function Run(s: System, events: seq<Event>): System {
    if events == [] then s else Step(Run(s, events[..|events| - 1]), events[|events| - 1])
  }

  /** The map is the state after some prefix of the writes. */
  predicate AfterPrefix(s: System, m: Types) {
    exists k :: 0 <= k <= |s.log| && m == Replay(s.base, s.log[..k])
  }

  predicate Inv(s: System) {
    && s.m == Replay(s.base, s.log)
    && (forall w <- s.writers :: !s.writers[w].Stored? ==> s.lock == Some(w))
    && (forall w <- s.writers :: s.writers[w].HasLoaded? ==> s.writers[w].seen == s.m)
    && (forall r <- s.readings :: AfterPrefix(s, s.readings[r]))
  }

  lemma PrefixesRemain(s: System, s': System, m: Types)
    requires AfterPrefix(s, m) && s'.base == s.base && s.log <= s'.log
    ensures AfterPrefix(s', m)
  {
    var k :| 0 <= k <= |s.log| && m == Replay(s.base, s.log[..k]);
    assert s'.log[..k] == s.log[..k];
  }

  lemma StepKeepsInv(s: System, e: Event)
    requires Inv(s)
    ensures Inv(Step(s, e)) && Step(s, e).base == s.base
  {
    hide Applied, Replay, AfterPrefix;
    var s' := Step(s, e);
    if e.Store? && e.w in s.writers && s.writers[e.w].HasLoaded? {
      ReplaySnoc(s.base, s.log, s.writers[e.w].op);
    }
    CurrentIsPrefix(s);
    forall r <- s'.readings
      ensures AfterPrefix(s', s'.readings[r])
    {
      PrefixesRemain(s, s', s'.readings[r]);
    }
  }

  lemma CurrentIsPrefix(s: System)
    requires s.m == Replay(s.base, s.log)
    ensures AfterPrefix(s, s.m)
  {
    assert s.log[..|s.log|] == s.log;
  }

  lemma {:induction false} EveryRunIsOk(base: Types, events: seq<Event>)
    ensures Inv(Run(Fresh(base), events)) && Run(Fresh(base), events).base == base
  {
    if events != [] {
      EveryRunIsOk(base, events[..|events| - 1]);
      StepKeepsInv(Run(Fresh(base), events[..|events| - 1]), events[|events| - 1]);
    }
  }

  /** Whatever the interleaving of writers and readers, the map a reader loads is the state after some
      prefix of the writes, so what it finds there is what that prefix says, and a built-in id is always
      found. */
  lemma ReadersSeePrefixes(base: Types, events: seq<Event>, r: nat, id: TypeId)
    requires Builtins(base) && r in Run(Fresh(base), events).readings
    ensures var s := Run(Fresh(base), events);
            && (exists k :: 0 <= k <= |s.log| && s.readings[r] == Replay(base, s.log[..k])
                            && Lookup(s.readings[r], id) == Latest(base, s.log[..k], id))
            && (id in base ==> id in s.readings[r])
  {
    EveryRunIsOk(base, events);
    var s := Run(Fresh(base), events);
    assert AfterPrefix(s, s.readings[r]);
    var k :| 0 <= k <= |s.log| && s.readings[r] == Replay(base, s.log[..k]);
    ReplayFollowsTheLog(base, s.log[..k], id);
  }

  lemma {:induction false} LogGrows(base: Types, events: seq<Event>, k: nat)
    requires k <= |events|
    ensures Run(Fresh(base), events[..k]).log <= Run(Fresh(base), events).log
  {
    if k == |events| {
      assert events[..k] == events;
    } else {
      var init := events[..|events| - 1];
      assert init[..k] == events[..k];
      LogGrows(base, init, k);
    }
  }

  /** The state just before event number k. */
  function Before(base: Types, events: seq<Event>, k: nat): System
    requires k <= |events|
  {
    Run(Fresh(base), events[..k])
  }

  /** A read is as recent as can be: it finds what the log of every store made before it says, and a later
      read finds what a log says that extends the earlier read's. */
  lemma ReadersNeverGoBack(base: Types, events: seq<Event>, i: nat, j: nat, r: nat, q: nat, id: TypeId)
    requires Builtins(base) && i <= j < |events| && events[i] == Read(r) && events[j] == Read(q)
    ensures var earlier, later := Before(base, events, i), Before(base, events, j);
            && r in Before(base, events, i + 1).readings && q in Before(base, events, j + 1).readings
            && Lookup(Before(base, events, i + 1).readings[r], id) == Latest(base, earlier.log, id)
            && Lookup(Before(base, events, j + 1).readings[q], id) == Latest(base, later.log, id)
            && earlier.log <= later.log
  {
    ReadIsCurrent(base, events, i, r, id);
    ReadIsCurrent(base, events, j, q, id);
    assert events[..j][..i] == events[..i];
    LogGrows(base, events[..j], i);
  }

  lemma ReadIsCurrent(base: Types, events: seq<Event>, i: nat, r: nat, id: TypeId)
    requires Builtins(base) && i < |events| && events[i] == Read(r)
    ensures r in Before(base, events, i + 1).readings
    ensures Lookup(Before(base, events, i + 1).readings[r], id) == Latest(base, Before(base, events, i).log, id)
  {
    var s := Before(base, events, i);
    assert events[..i + 1][..i] == events[..i];
    EveryRunIsOk(base, events[..i]);
    ReplayFollowsTheLog(base, s.log, id);
  }
}
