/** How the resolver turns a provider's suggestion into candidate usernames. */
module Usernames {
  import opened Sets
  import opened Text

  const USERNAME_MIN_LEN := 3
  const USERNAME_MAX_LEN := 32
  const PROVISION_ATTEMPTS := 8

  predicate LegalChar(c: char) {
    || 'a' <= c <= 'z' || 'A' <= c <= 'Z' || '0' <= c <= '9' || c == '_' || c == '.' || c == '-'
  }

  /** The rule registration enforces. */
  predicate LegalName(s: string) {
    USERNAME_MIN_LEN <= |s| <= USERNAME_MAX_LEN && forall c <- s :: LegalChar(c)
  }

  function Kept(s: string): (k: string)
    ensures forall c <- k :: LegalChar(c)
  {
    if s == "" then "" else Kept(s[..|s| - 1]) + if LegalChar(s[|s| - 1]) then [s[|s| - 1]] else ""
  }

  function Sanitized(s: string): string {
    var out := Kept(TrimSpace(s));
    var cut := if |out| > USERNAME_MAX_LEN then out[..USERNAME_MAX_LEN] else out;
    if |cut| < USERNAME_MIN_LEN then "" else cut
  }

  method SanitizeUsername(s: string) returns (name: string)
    ensures name == Sanitized(s)
    ensures name == "" || LegalName(name)
    ensures name == s <==> s == "" || LegalName(s)
  {
    var trimmed := TrimSpace(s);
    var b := "";
    for i := 0 to |trimmed|
      invariant b == Kept(trimmed[..i])
    {
      assert trimmed[..i + 1][..i] == trimmed[..i];
      if LegalChar(trimmed[i]) {
        b := b + [trimmed[i]];
      }
    }
    assert trimmed[..|trimmed|] == trimmed;
    name := b;
    if |name| > USERNAME_MAX_LEN {
      name := name[..USERNAME_MAX_LEN];
    }
    if |name| < USERNAME_MIN_LEN || exists c <- name :: !LegalChar(c) {
      name := "";
    }
    SanitizedFixedPoints(s);
  }

  lemma {:induction false} KeptOfLegal(s: string)
    requires forall c <- s :: LegalChar(c)
    ensures Kept(s) == s
  {
    if s != "" {
      KeptOfLegal(s[..|s| - 1]);
      assert s == s[..|s| - 1] + [s[|s| - 1]];
    }
  }

  /** The names sanitizing leaves alone are exactly the legal ones and the empty one. */
  lemma SanitizedFixedPoints(s: string)
    ensures Sanitized(s) == s <==> s == "" || LegalName(s)
  {
    if LegalName(s) {
      assert LegalChar(s[0]) && LegalChar(s[|s| - 1]);
      KeptOfLegal(s);
    }
  }

  lemma {:induction false} KeptOfConcat(a: string, b: string)
    ensures Kept(a + b) == Kept(a) + Kept(b)
  {
    if b == "" {
      assert a + b == a;
    } else {
      assert (a + b)[..|a + b| - 1] == a + b[..|b| - 1];
      KeptOfConcat(a, b[..|b| - 1]);
    }
  }

  lemma {:induction false} KeptOfIllegal(s: string)
    requires forall c <- s :: !LegalChar(c)
    ensures Kept(s) == ""
  {
    if s != "" {
      KeptOfIllegal(s[..|s| - 1]);
    }
  }

  lemma BlankIsIllegal(c: char)
    requires IsSpace(c)
    ensures !LegalChar(c)
  {
  }

  /** Trimming makes no difference, since blanks are dropped anyway. */
  lemma KeptOfTrimmed(s: string)
    ensures Kept(TrimSpace(s)) == Kept(s)
  {
    hide TrimSpace, Kept, IsSpace, LegalChar;
    var a, b := TrimSpaceExactly(s);
    forall c | IsSpace(c)
      ensures !LegalChar(c)
    {
      BlankIsIllegal(c);
    }
    KeptOfIllegal(s[..a]);
    KeptOfIllegal(s[b..]);
    KeptOfConcat(s[..a], s[a..b]);
    KeptOfConcat(s[..a] + s[a..b], s[b..]);
    assert s == s[..a] + s[a..b] + s[b..];
  }

  /** Sanitizing drops every character but letters, digits, underscores, dots and hyphens, wherever it stands. */
  lemma SanitizingDropsTheRest(a: string, c: char, b: string)
    requires !('a' <= c <= 'z') && !('A' <= c <= 'Z') && !('0' <= c <= '9') && c !in ['_', '.', '-']
    ensures Sanitized(a + [c] + b) == Sanitized(a + b)
  {
    hide Kept, TrimSpace;
    KeptOfTrimmed(a + [c] + b);
    KeptOfTrimmed(a + b);
    KeptOfConcat(a + [c], b);
    KeptOfConcat(a, [c]);
    KeptOfConcat(a, b);
    KeptOfIllegal([c]);
  }

  /** Of what is left it keeps the first 32 characters, or nothing when there are fewer than three. */
  lemma SanitizingCuts(s: string)
    requires forall c <- s :: || 'a' <= c <= 'z' || 'A' <= c <= 'Z' || '0' <= c <= '9' || c in ['_', '.', '-']
    ensures Sanitized(s) == if |s| < 3 then "" else if |s| > 32 then s[..32] else s
  {
    KeptOfTrimmed(s);
    KeptOfLegal(s);
  }

  /** The base itself on the first attempt, a numbered variant cut to the length rule afterwards. */
  function Candidate(base: string, attempt: nat): string
    requires attempt < PROVISION_ATTEMPTS
  {
    if attempt == 0 then base
    else
      var suffix := "-" + Decimal(attempt + 1);
      (if |base| + |suffix| > USERNAME_MAX_LEN then base[..USERNAME_MAX_LEN - |suffix|] else base) + suffix
  }

  lemma CandidatesAreLegal(base: string, attempt: nat)
    requires LegalName(base) && attempt < PROVISION_ATTEMPTS
    ensures LegalName(Candidate(base, attempt))
  {
    assert attempt > 0 ==> Decimal(attempt + 1) == [DigitChar(attempt + 1)];
  }

  /** The first candidate is the base; attempt number a + 1 ends in a hyphen and that number, after as much of the
      base as leaves 32 characters. */
  lemma CandidateInPlainWords(base: string, a: nat)
    requires LegalName(base) && a < PROVISION_ATTEMPTS
    ensures a == 0 ==> Candidate(base, a) == base
    ensures a > 0 ==>
              var kept, c := if |base| > 30 then 30 else |base|, Candidate(base, a);
              |c| == kept + 2 && c[..kept] == base[..kept] && c[kept] == '-' && c[kept + 1] as int == '1' as int + a
  {
    if a > 0 {
      assert Decimal(a + 1) == [DigitChar(a + 1)];
    }
  }

  /** Two attempts try the same username, up to letter case, only when the base is 32 characters long and
      already ends in the later attempt's suffix. */
  lemma CandidatesCoincide(base: string, a: nat, b: nat)
    requires LegalName(base) && a < b < PROVISION_ATTEMPTS
    ensures Lower(Candidate(base, a)) == Lower(Candidate(base, b))
       <==> a == 0 && |base| == USERNAME_MAX_LEN && base[30..] == "-" + Decimal(b + 1)
  {
    var x, y := Candidate(base, a), Candidate(base, b);
    assert Decimal(b + 1) == [DigitChar(b + 1)];
    if a > 0 {
      assert Decimal(a + 1) == [DigitChar(a + 1)];
      assert |x| == |y| && Lower(x)[|x| - 1] == x[|x| - 1] != y[|y| - 1] == Lower(y)[|y| - 1];
    } else if |base| == USERNAME_MAX_LEN {
      assert |y| == 32 && y[..30] == base[..30] && y[30..] == "-" + Decimal(b + 1);
      assert base[30..] == [base[30], base[31]] && base == base[..30] + base[30..] && y == y[..30] + y[30..];
      assert LegalChar(base[30]) && LegalChar(base[31]);
      assert Lower(base)[30] == LowerChar(base[30]) && Lower(base)[31] == LowerChar(base[31]);
      assert Lower(y)[30] == '-' && Lower(y)[31] == DigitChar(b + 1);
    } else {
      assert |x| < |y| || |y| < |x|;
    }
  }

  /** Every stem of 30 legal characters gives such a base for every later attempt. */
  lemma SuffixedBasesCoincide(stem: string, b: nat)
    requires |stem| == 30 && (forall c <- stem :: LegalChar(c)) && 0 < b < PROVISION_ATTEMPTS
    ensures var base := stem + "-" + Decimal(b + 1); LegalName(base) && Candidate(base, 0) == Candidate(base, b)
  {
    assert Decimal(b + 1) == [DigitChar(b + 1)];
    var base := stem + "-" + Decimal(b + 1);
    assert base[..30] == stem;
  }

  /** The usernames the search tries, as the database compares them. */
  function Tried(base: string): set<string> {
    set a: nat | a < PROVISION_ATTEMPTS :: Lower(Candidate(base, a))
  }

  /** Whether the base already ends in the suffix of a later attempt. */
  predicate EndsInSuffix(base: string) {
    |base| == USERNAME_MAX_LEN && exists b | 0 < b < PROVISION_ATTEMPTS :: base[30..] == Suffix(b)
  }

  function Suffix(b: nat): string {
    "-" + Decimal(b + 1)
  }

  /** Eight different usernames are tried, or seven when the base ends in a suffix. */
  lemma AtLeastSevenTried(base: string)
    requires LegalName(base)
    ensures |Tried(base)| == if EndsInSuffix(base) then 7 else 8
  {
    hide Candidate, LegalName, Lower;
    var names := seq(8, i requires 0 <= i < 8 => Lower(Candidate(base, i)));
    forall i, j | 0 <= i < j < 8
      ensures names[i] == names[j] <==> i == 0 && |base| == USERNAME_MAX_LEN && base[30..] == Suffix(j)
    {
      CandidatesCoincide(base, i, j);
    }
    if EndsInSuffix(base) {
      var b :| 0 < b < PROVISION_ATTEMPTS && base[30..] == Suffix(b);
      assert names[0] == names[b];
      forall a: nat | a < PROVISION_ATTEMPTS
        ensures Lower(Candidate(base, a)) in names[1..]
      {
        assert Lower(Candidate(base, a)) == names[a];
        assert names[1..][if a == 0 then b - 1 else a - 1] == names[a];
      }
      TriedAre(base, names[1..]);
      SizeOfDistinct(names[1..]);
    } else {
      forall a: nat | a < PROVISION_ATTEMPTS
        ensures Lower(Candidate(base, a)) in names
      {
        assert Lower(Candidate(base, a)) == names[a];
      }
      TriedAre(base, names);
      SizeOfDistinct(names);
    }
  }

  lemma TriedAre(base: string, names: seq<string>)
    requires LegalName(base)
    requires forall a: nat :: a < PROVISION_ATTEMPTS ==> Lower(Candidate(base, a)) in names
    requires forall x <- names :: exists a: nat :: a < PROVISION_ATTEMPTS && x == Lower(Candidate(base, a))
    ensures Tried(base) == set x <- names
  {
  }
}
