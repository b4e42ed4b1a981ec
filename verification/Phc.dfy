/** The PHC string of a stored password: its printer and its parser. */
module Phc {
  import opened Wrappers
  import opened Text
  import opened Base64

  const ARGON2_VERSION := 19
  const ARGON2ID := "argon2id"

  type uint32 = n: int | 0 <= n < 0x1_0000_0000

  type uint8 = n: int | 0 <= n < 0x100

  datatype Params = Params(memoryKiB: uint32, iterations: uint32, threads: uint8, salt: seq<byte>, hash: seq<byte>)

  function Costs(p: Params): string {
    "m=" + Decimal(p.memoryKiB) + ",t=" + Decimal(p.iterations) + ",p=" + Decimal(p.threads)
  }

  function Print(p: Params): string {
    "$" + ARGON2ID + "$v=" + Decimal(ARGON2_VERSION) + "$" + Costs(p) + "$" + Encode(p.salt) + "$" + Encode(p.hash)
  }

  // ---- the parser --------------------------------------------------------------------------

  /** Sscanf skips blanks before a number but not a line break. */
  function SkipSpace(s: string): Option<string> {
    if s == "" || !IsSpace(s[0]) then Some(s)
    else if s[0] == '\n' then None
    else SkipSpace(s[1..])
  }

  function Leading(s: string): (n: nat)
    ensures n <= |s| && forall c <- s[..n] :: IsDigit(c)
  {
    if s == "" || !IsDigit(s[0]) then 0 else 1 + Leading(s[1..])
  }

  /** The verb %d into an unsigned number below `limit`, and the input that is left. */
  function ScanUint(s: string, limit: nat): Option<(nat, string)> {
    var t :- SkipSpace(s);
    var n := Leading(t);
    if n == 0 || limit <= DecimalValue(t[..n]) then None else Some((DecimalValue(t[..n]), t[n..]))
  }

  /** The verb %d into a signed 64-bit number. */
  function ScanInt(s: string): Option<(int, string)> {
    var t :- SkipSpace(s);
    var signed := t != "" && (t[0] == '+' || t[0] == '-');
    var u := if signed then t[1..] else t;
    var n := Leading(u);
    var magnitude: int := DecimalValue(u[..n]);
    var value := if signed && t[0] == '-' then -magnitude else magnitude;
    if n == 0 || !(-0x8000_0000_0000_0000 <= value < 0x8000_0000_0000_0000) then None else Some((value, u[n..]))
  }

  function Expect(s: string, literal: string): Option<string> {
    if literal <= s then Some(s[|literal|..]) else None
  }

  /** Sscanf looks no further than the last verb, so whatever follows the number is accepted. */
  function ScanVersion(s: string): Option<int> {
    var s1 :- Expect(s, "v=");
    var v :- ScanInt(s1);
    Some(v.0)
  }

  function ScanCosts(s: string): Option<(uint32, uint32, uint8)> {
    var s1 :- Expect(s, "m=");
    var m :- ScanUint(s1, 0x1_0000_0000);
    var s2 :- Expect(m.1, ",t=");
    var t :- ScanUint(s2, 0x1_0000_0000);
    var s3 :- Expect(t.1, ",p=");
    var p :- ScanUint(s3, 0x100);
    Some((m.0, t.0, p.0))
  }

  function Parse(encoded: string): Option<Params> {
    var parts := Split(encoded, '$');
    if |parts| != 6 || parts[1] != ARGON2ID then None
    else
      var version :- ScanVersion(parts[2]);
      if version != ARGON2_VERSION then None
      else
        var costs :- ScanCosts(parts[3]);
        var salt :- Decode(parts[4]);
        var hash :- Decode(parts[5]);
        Some(Params(costs.0, costs.1, costs.2, salt, hash))
  }

  // ---- parsing undoes printing -------------------------------------------------------------

  /** Text in which Sscanf stops reading a number: none, or some that does not begin with a digit. */
  predicate EndsNumber(s: string) {
    s == "" || !IsDigit(s[0])
  }

  lemma {:induction false} LeadingOf(digits: string, rest: string)
    requires (forall c <- digits :: IsDigit(c)) && EndsNumber(rest)
    ensures Leading(digits + rest) == |digits|
  {
    if digits == "" {
      assert digits + rest == rest;
    } else {
      assert (digits + rest)[1..] == digits[1..] + rest && IsDigit(digits[0]);
      LeadingOf(digits[1..], rest);
    }
  }

  /** Digits that do not go on are read as the number they denote, or refused when it does not fit. */
  lemma ScanUintOfDigits(digits: string, rest: string, limit: nat)
    requires digits != "" && (forall c <- digits :: IsDigit(c)) && EndsNumber(rest)
    ensures ScanUint(digits + rest, limit)
         == if limit <= DecimalValue(digits) then None else Some((DecimalValue(digits), rest))
  {
    var s := digits + rest;
    assert IsDigit(digits[0]) && s[0] == digits[0];
    LeadingOf(digits, rest);
    assert s[..|digits|] == digits && s[|digits|..] == rest;
  }

  lemma ScanUintOfDecimal(n: nat, rest: string, limit: nat)
    requires n < limit && EndsNumber(rest)
    ensures ScanUint(Decimal(n) + rest, limit) == Some((n, rest))
  {
    hide ScanUint, Decimal, DecimalValue;
    DecimalValueOfDecimal(n);
    ScanUintOfDigits(Decimal(n), rest, limit);
  }

  lemma ScanCostsOfCosts(p: Params, trailing: string)
    requires EndsNumber(trailing)
    ensures ScanCosts(Costs(p) + trailing) == Some((p.memoryKiB, p.iterations, p.threads))
  {
    hide Decimal, ScanUint;
    var threads := Decimal(p.threads) + trailing;
    var iterations := Decimal(p.iterations) + (",p=" + threads);
    var memory := Decimal(p.memoryKiB) + (",t=" + iterations);
    ScanUintOfDecimal(p.memoryKiB, ",t=" + iterations, 0x1_0000_0000);
    ScanUintOfDecimal(p.iterations, ",p=" + threads, 0x1_0000_0000);
    ScanUintOfDecimal(p.threads, trailing, 0x100);
    assert Costs(p) + trailing == "m=" + memory;
    assert Expect("m=" + memory, "m=") == Some(memory);
    assert Expect(",t=" + iterations, ",t=") == Some(iterations);
    assert Expect(",p=" + threads, ",p=") == Some(threads);
  }

  lemma ScanVersionOfPrinted(trailing: string)
    requires EndsNumber(trailing)
    ensures ScanVersion("v=" + Decimal(ARGON2_VERSION) + trailing) == Some(ARGON2_VERSION)
  {
    hide Leading, DecimalValue;
    var t := Decimal(19) + trailing;
    assert Decimal(19) == "19";
    assert "v=" + Decimal(19) + trailing == "v=" + t && ("v=" + t)[2..] == t;
    LeadingOf("19", trailing);
    DecimalValueOfDecimal(19);
    assert t[..2] == "19";
  }

  predicate NoDollar(s: string) {
    '$' !in s
  }

  lemma PartsHaveNoDollar(p: Params)
    ensures NoDollar(Decimal(ARGON2_VERSION)) && NoDollar(Costs(p)) && NoDollar(Encode(p.salt))
        && NoDollar(Encode(p.hash))
  {
    hide Decimal, Encode;
    BytesOfEncode(p.salt);
    BytesOfEncode(p.hash);
  }

  /** A printed string with extra text in the three places the parser does not look at. */
  function Loosely(p: Params, before: string, afterVersion: string, afterCosts: string): string {
    before + "$" + ARGON2ID + "$v=" + Decimal(ARGON2_VERSION) + afterVersion + "$" + Costs(p) + afterCosts
    + "$" + Encode(p.salt) + "$" + Encode(p.hash)
  }

  lemma SplitLoosely(p: Params, before: string, afterVersion: string, afterCosts: string)
    requires NoDollar(before) && NoDollar(afterVersion) && NoDollar(afterCosts)
    ensures Split(Loosely(p, before, afterVersion, afterCosts), '$')
         == [before, ARGON2ID, "v=" + Decimal(ARGON2_VERSION) + afterVersion, Costs(p) + afterCosts, Encode(p.salt),
             Encode(p.hash)]
  {
    hide Decimal, Encode, Costs, Split;
    PartsHaveNoDollar(p);
    var hash := Encode(p.hash);
    var salt := Encode(p.salt) + "$" + hash;
    var costs := Costs(p) + afterCosts + "$" + salt;
    var version := "v=" + Decimal(ARGON2_VERSION) + afterVersion + "$" + costs;
    var name := ARGON2ID + "$" + version;
    assert Loosely(p, before, afterVersion, afterCosts) == before + "$" + name;
    SplitFirst(before, name, '$');
    SplitFirst(ARGON2ID, version, '$');
    SplitFirst("v=" + Decimal(ARGON2_VERSION) + afterVersion, costs, '$');
    SplitFirst(Costs(p) + afterCosts, salt, '$');
    SplitFirst(Encode(p.salt), hash, '$');
    SplitOne(hash, '$');
  }

  /** The parser reads the parameters back and is indifferent to text before the first separator, after the
      version and after the costs. */
  lemma ParseIsTolerant(p: Params, before: string, afterVersion: string, afterCosts: string)
    requires NoDollar(before) && NoDollar(afterVersion) && NoDollar(afterCosts)
    requires EndsNumber(afterVersion) && EndsNumber(afterCosts)
    ensures Parse(Loosely(p, before, afterVersion, afterCosts)) == Some(p)
  {
    hide Decimal, Encode, Decode, Costs, Split, ScanVersion, ScanCosts, Loosely;
    SplitLoosely(p, before, afterVersion, afterCosts);
    ScanVersionOfPrinted(afterVersion);
    ScanCostsOfCosts(p, afterCosts);
    DecodeOfEncode(p.salt);
    DecodeOfEncode(p.hash);
  }

  /** Parsing undoes printing, for every cost, salt and hash. */
  lemma ParseOfPrint(p: Params)
    ensures Parse(Print(p)) == Some(p)
  {
    hide Decimal, Encode, Costs, Parse;
    assert Print(p) == Loosely(p, "", "", "");
    ParseIsTolerant(p, "", "", "");
  }

  /** So different parameters never print alike. */
  lemma PrintIsInjective(p: Params, q: Params)
    requires Print(p) == Print(q)
    ensures p == q
  {
    ParseOfPrint(p);
    ParseOfPrint(q);
  }
}
