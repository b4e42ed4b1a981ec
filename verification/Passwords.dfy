/** Hashing and verifying passwords behind the gate. The key derivation itself is a parameter. */
module Passwords {
  import opened Wrappers
  import opened Text
  import opened Base64
  import opened Phc
  import opened PhcCanonical
  import opened HashGate
  import opened ExternalLogin

  const ARGON_MEMORY_KIB := 64 * 1024
  const ARGON_ITERATIONS := 3
  const ARGON_THREADS := 4
  const ARGON_KEY_LEN := 32

  /** Why no key was derived: the gate shed the caller, or the library call panicked. */
  datatype Failure = Overloaded(shed: Shed) | Panicked

  datatype Error = InvalidHash | NoKey(failure: Failure)

  /** Password, salt, iterations, memory, threads and key length to key; none when the library panics. */
  type Kdf = (string, seq<byte>, uint32, uint32, uint8, uint32) -> Option<seq<byte>>

  /** What is assumed of the library: it panics without a round, without a lane, and when a key of no length
      is asked for; in every other case it delivers a key of the length asked for. */
  ghost predicate IsArgon2(kdf: Kdf) {
    forall pw, salt, t, m, p, n ::
      var key := kdf(pw, salt, t, m, p, n);
      (key == None <==> t == 0 || p == 0 || n == 0) && (key.Some? ==> |key.value| == n)
  }

  /** The key derived with the current costs. */
  function CurrentKey(kdf: Kdf, password: string, salt: seq<byte>): Option<seq<byte>> {
    kdf(password, salt, ARGON_ITERATIONS, ARGON_MEMORY_KIB, ARGON_THREADS, ARGON_KEY_LEN)
  }

  function CurrentParams(salt: seq<byte>, hash: seq<byte>): Params {
    Params(ARGON_MEMORY_KIB, ARGON_ITERATIONS, ARGON_THREADS, salt, hash)
  }

  /** The length of the stored hash is cut to 32 bits before it is asked for. */
  function Recomputed(kdf: Kdf, password: string, p: Params): Option<seq<byte>> {
    kdf(password, p.salt, p.iterations, p.memoryKiB, p.threads, |p.hash| % 0x1_0000_0000)
  }

  function NeedsRehash(encoded: string): bool {
    var p := Parse(encoded);
    p.None? || p.value.memoryKiB != ARGON_MEMORY_KIB || p.value.iterations != ARGON_ITERATIONS
        || p.value.threads != ARGON_THREADS
  }

  /** The one place a key is derived: takes a slot, derives, gives the slot back, also when the call panics. */
  method DeriveKey(gate: HashGate, kdf: Kdf, password: string, p: Params, keyLen: uint32, event: Event,
                   rivals: seq<int>)
    returns (r: Result<seq<byte>, Failure>)
    requires 0 < gate.capacity && event == SlotTaken ==> gate.held < gate.capacity
    modifies gate
    ensures gate.held == old(gate.held) && gate.inFlight == old(gate.inFlight)
    ensures r.Err? && r.error.Overloaded? <==> 0 < gate.capacity && event != SlotTaken
    ensures r.Err? && r.error.Overloaded?
        ==> gate.peak == old(gate.peak) && (r.error.shed == Cancelled <==> event == ContextDone)
    ensures gate.capacity <= 0 || event == SlotTaken ==>
              var key := kdf(password, p.salt, p.iterations, p.memoryKiB, p.threads, keyLen);
              r == if key.Some? then Ok(key.value) else Err(Panicked)
  {
    var admitted := gate.AcquireHash(event, rivals);
    if admitted.Err? {
      return Err(Overloaded(admitted.error));
    }
    var key := kdf(password, p.salt, p.iterations, p.memoryKiB, p.threads, keyLen);
    gate.Release();
    r := if key.Some? then Ok(key.value) else Err(Panicked);
  }

  const CURRENT_PREFIX := "$argon2id$v=19$m=65536,t=3,p=4$"

  lemma FiveDigits()
    ensures Decimal(65536) == "65536"
  {
    assert Decimal(6) == "6" && Decimal(65) == "65" && Decimal(655) == "655";
    assert Decimal(6553) == "6553";
  }

  lemma OneDigit()
    ensures Decimal(3) == "3" && Decimal(4) == "4"
  {
  }

  lemma CurrentCosts(salt: seq<byte>, hash: seq<byte>)
    ensures Costs(CurrentParams(salt, hash)) == "m=65536,t=3,p=4"
  {
    hide Decimal;
    FiveDigits();
    OneDigit();
  }

  lemma PrintUnfolds(p: Params)
    ensures Print(p) == "$argon2id$v=19$" + (Costs(p) + ['$'] + (Encode(p.salt) + "$" + Encode(p.hash)))
  {
    hide Costs, Encode, Decimal;
    TwoDigits();
  }

  lemma FreshHashSpelledOut(salt: seq<byte>, key: seq<byte>)
    ensures Print(CurrentParams(salt, key)) == CURRENT_PREFIX + Encode(salt) + "$" + Encode(key)
  {
    hide Print, Costs, Encode;
    PrintUnfolds(CurrentParams(salt, key));
    CurrentCosts(salt, key);
  }

  method HashPassword(gate: HashGate, kdf: Kdf, password: string, salt: seq<byte>, event: Event, rivals: seq<int>)
    returns (r: Result<string, Error>)
    requires IsArgon2(kdf)
    requires 0 < gate.capacity && event == SlotTaken ==> gate.held < gate.capacity
    modifies gate
    ensures gate.held == old(gate.held) && gate.inFlight == old(gate.inFlight)
    ensures r.Ok? <==> gate.capacity <= 0 || event == SlotTaken
    ensures r.Ok?
        ==> exists key :: CurrentKey(kdf, password, salt) == Some(key) && r.value == Print(CurrentParams(salt, key))
    ensures r.Ok? ==> exists key ::
              && kdf(password, salt, 3, 65536, 4, 32) == Some(key) && |key| == 32
              && r.value == "$argon2id$v=19$m=65536,t=3,p=4$" + Encode(salt) + "$" + Encode(key)
    ensures r.Err? ==> r.error.NoKey? && r.error.failure.Overloaded?
  {
    var p := CurrentParams(salt, []);
    var key := DeriveKey(gate, kdf, password, p, ARGON_KEY_LEN, event, rivals);
    if key.Err? {
      return Err(NoKey(key.error));
    }
    FreshHashSpelledOut(salt, key.value);
    r := Ok(Print(p.(hash := key.value)));
  }

  /** A stored string that does not parse is an error before any slot is asked for. Being shed is an error
      too, and so is a stored hash whose costs the library panics on; neither is an answer about the password. */
  method VerifyPassword(gate: HashGate, kdf: Kdf, password: string, encoded: string, event: Event, rivals: seq<int>)
    returns (r: Result<bool, Error>)
    requires 0 < gate.capacity && event == SlotTaken ==> gate.held < gate.capacity
    modifies gate
    ensures gate.held == old(gate.held) && gate.inFlight == old(gate.inFlight)
    ensures Parse(encoded).None? ==> r == Err(InvalidHash) && unchanged(gate)
    ensures Parse(encoded).Some? && (gate.capacity <= 0 || event == SlotTaken) ==>
              var p := Parse(encoded).value;
              var key := kdf(password, p.salt, p.iterations, p.memoryKiB, p.threads, |p.hash| % 0x1_0000_0000);
              r == if key.Some? then Ok(key.value == p.hash) else Err(NoKey(Panicked))
    ensures Parse(encoded).Some? && 0 < gate.capacity && event != SlotTaken ==>
              r == Err(NoKey(Overloaded(if event == ContextDone then Cancelled else Unavailable)))
  {
    var parsed := Parse(encoded);
    if parsed.None? {
      return Err(InvalidHash);
    }
    var p := parsed.value;
    var key := DeriveKey(gate, kdf, password, p, |p.hash| % 0x1_0000_0000, event, rivals);
    if key.Err? {
      return Err(NoKey(key.error));
    }
    r := Ok(key.value == p.hash);
  }

  predicate Matches(kdf: Kdf, password: string, encoded: string) {
    Parse(encoded).Some? && Recomputed(kdf, password, Parse(encoded).value) == Some(Parse(encoded).value.hash)
  }

  /** A password matches a stored string exactly when, with the costs, the salt and the key length the string
      says, it derives the key the string says: the costs may be any, old ones included. */
  lemma MatchesByItsOwnCosts(kdf: Kdf, attempt: string, encoded: string)
    ensures Matches(kdf, attempt, encoded) <==>
            && Parse(encoded).Some?
            && var p := Parse(encoded).value;
               kdf(attempt, p.salt, p.iterations, p.memoryKiB, p.threads, |p.hash| % 0x1_0000_0000) == Some(p.hash)
  {
    hide Parse;
  }

  /** A hash made under any costs parses, is matched by its own password, and by no other than those that derive
      the same key. */
  lemma StoredHashVerifies(kdf: Kdf, password: string, attempt: string, p: Params, keyLen: uint32)
    requires IsArgon2(kdf) && kdf(password, p.salt, p.iterations, p.memoryKiB, p.threads, keyLen) == Some(p.hash)
    ensures var encoded := Print(p);
            && Parse(encoded) == Some(p)
            && Matches(kdf, password, encoded)
            && (Matches(kdf, attempt, encoded) <==>
                  kdf(attempt, p.salt, p.iterations, p.memoryKiB, p.threads, keyLen) == Some(p.hash))
  {
    hide Parse, Print;
    assert |p.hash| == keyLen;
    ParseOfPrint(p);
  }

  /** A fresh hash moreover needs no rehash. */
  lemma FreshHashVerifies(kdf: Kdf, password: string, salt: seq<byte>, attempt: string, key: seq<byte>)
    requires IsArgon2(kdf) && kdf(password, salt, 3, 65536, 4, 32) == Some(key)
    ensures var encoded := "$argon2id$v=19$m=65536,t=3,p=4$" + Encode(salt) + "$" + Encode(key);
            && !NeedsRehash(encoded)
            && Parse(encoded).Some?
            && Matches(kdf, password, encoded)
            && (Matches(kdf, attempt, encoded) <==> kdf(attempt, salt, 3, 65536, 4, 32) == Some(key))
  {
    hide Parse, Print, Encode;
    FreshHashSpelledOut(salt, key);
    ParseOfPrint(CurrentParams(salt, key));
    StoredHashVerifies(kdf, password, attempt, CurrentParams(salt, key), ARGON_KEY_LEN);
  }

  /** Whatever the password, a stored string that parses panics its caller instead of being refused exactly
      when it names no rounds or no lanes, or when the 32-bit length of its hash is zero. */
  lemma ParsedStringsPanicExactly(kdf: Kdf, password: string, encoded: string)
    requires IsArgon2(kdf)
    ensures Parse(encoded).Some? ==>
              var p := Parse(encoded).value;
              (Recomputed(kdf, password, p) == None
               <==> p.iterations == 0 || p.threads == 0 || |p.hash| % 0x1_0000_0000 == 0)
  {
    hide Parse;
  }

  /** Each of the three is met by a string that parses: an empty last part, no rounds, no lanes. */
  lemma PanickingStringsParse(kdf: Kdf, password: string, p: Params)
    requires IsArgon2(kdf)
    ensures forall q <- [p.(hash := []), p.(iterations := 0), p.(threads := 0)] ::
              Parse(Print(q)) == Some(q) && Recomputed(kdf, password, q) == None
  {
    hide Parse, Print;
    forall q <- [p.(hash := []), p.(iterations := 0), p.(threads := 0)]
      ensures Parse(Print(q)) == Some(q) && Recomputed(kdf, password, q) == None
    {
      ParseOfPrint(q);
    }
  }

  lemma CostsDecideTheParameters(p: Params, q: Params)
    requires Costs(p) == Costs(q)
    ensures p.memoryKiB == q.memoryKiB && p.iterations == q.iterations && p.threads == q.threads
  {
    hide Costs, ScanCosts;
    ScanCostsOfCosts(p, "");
    ScanCostsOfCosts(q, "");
    assert Costs(p) + "" == Costs(p) && Costs(q) + "" == Costs(q);
  }

  lemma SameFirstPiece(p: string, q: string, rest: string, tail: string, sep: char)
    requires sep !in p && sep !in q && p + [sep] + rest == q + [sep] + tail
    ensures p == q
  {
    hide Split;
    SplitFirst(p, rest, sep);
    SplitFirst(q, tail, sep);
    assert ([p] + Split(rest, sep))[0] == ([q] + Split(tail, sep))[0];
  }

  lemma PrefixExactly(head: string, p: string, q: string, rest: string, sep: char)
    requires sep !in p && sep !in q
    ensures head + (q + [sep]) <= head + (p + [sep] + rest) <==> p == q
  {
    var text, prefix := head + (p + [sep] + rest), head + (q + [sep]);
    if prefix <= text {
      var tail := text[|prefix|..];
      assert p + [sep] + rest == text[|head|..] == q + [sep] + tail;
      SameFirstPiece(p, q, rest, tail, sep);
    } else {
      assert p == q ==> text == prefix + rest;
    }
  }

  lemma PrintsThePrefixExactly(p: Params)
    ensures CURRENT_PREFIX <= Print(p) <==> Costs(p) == "m=65536,t=3,p=4"
  {
    hide Costs, Encode, Decimal, Print;
    PrintUnfolds(p);
    PartsHaveNoDollar(p);
    assert CURRENT_PREFIX == "$argon2id$v=19$" + ("m=65536,t=3,p=4" + ['$']);
    PrefixExactly("$argon2id$v=19$", Costs(p), "m=65536,t=3,p=4", Encode(p.salt) + "$" + Encode(p.hash), '$');
  }

  /** A stored string needs a rehash exactly when it does not parse or what it says, printed anew, does not
      begin with the current algorithm, version and costs. A string in the printed form shows that itself. */
  lemma RehashExactly(encoded: string)
    ensures NeedsRehash(encoded) <==> Parse(encoded).None? || !(CURRENT_PREFIX <= Print(Parse(encoded).value))
    ensures Canonical(encoded) && Parse(encoded).Some? ==> (NeedsRehash(encoded) <==> !(CURRENT_PREFIX <= encoded))
  {
    hide Parse, Print, Canonical, Costs;
    if Parse(encoded).Some? {
      var p := Parse(encoded).value;
      PrintsThePrefixExactly(p);
      CurrentCosts(p.salt, p.hash);
      if Costs(p) == "m=65536,t=3,p=4" {
        CostsDecideTheParameters(p, CurrentParams(p.salt, p.hash));
      } else {
        SameCostsPrintAlike(p, CurrentParams(p.salt, p.hash));
      }
      PrintedExactly(encoded, p);
    }
  }

  lemma SameCostsPrintAlike(p: Params, q: Params)
    ensures p.memoryKiB == q.memoryKiB && p.iterations == q.iterations && p.threads == q.threads
        ==> Costs(p) == Costs(q)
  {
  }

  /** The password stored for an account that an external login created never verifies: it does not parse. */
  lemma ProvisionedAccountHasNoPassword(id: Identity, attempt: Attempt)
    ensures Parse(NewAccount(id, attempt).passwordHash).None? && NeedsRehash(NewAccount(id, attempt).passwordHash)
  {
    SplitOne(NO_PASSWORD_HASH, '$');
  }
}
