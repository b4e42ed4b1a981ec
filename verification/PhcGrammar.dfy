/** Exactly which strings the parser accepts, and what it reads from them, piece by piece. */
module PhcGrammar {
  import opened Wrappers
  import opened Text
  import opened Base64
  import opened Phc
  import opened PhcCanonical

  // ---- numbers -----------------------------------------------------------------------------

  /** Blanks other than a line feed, which Sscanf skips before a number. */
  predicate Blanks(w: string) {
    forall c <- w :: IsSpace(c) && c != '\n'
  }

  predicate Digits(d: string) {
    d != "" && forall c <- d :: IsDigit(c)
  }

  lemma {:induction false} SkipBlanks(w: string, s: string)
    requires Blanks(w) && (s == "" || !IsSpace(s[0]))
    ensures SkipSpace(w + s) == Some(s)
  {
    if w == "" {
      assert w + s == s;
    } else {
      assert w[0] in w && (w + s)[1..] == w[1..] + s;
      SkipBlanks(w[1..], s);
    }
  }

  lemma {:induction false} SkippedBlanks(s: string) returns (w: string)
    requires SkipSpace(s).Some?
    ensures Blanks(w) && s == w + SkipSpace(s).value
  {
    if s == "" || !IsSpace(s[0]) {
      w := "";
    } else {
      var v := SkippedBlanks(s[1..]);
      w := [s[0]] + v;
      assert s == [s[0]] + s[1..];
      forall c <- w
        ensures IsSpace(c) && c != '\n'
      {
        assert c == s[0] || c in v;
      }
    }
  }

  lemma {:induction false} LeadingDigits(s: string)
    ensures (forall c <- s[..Leading(s)] :: IsDigit(c)) && EndsNumber(s[Leading(s)..])
  {
    if s != "" && IsDigit(s[0]) {
      LeadingDigits(s[1..]);
      assert s[Leading(s)..] == s[1..][Leading(s[1..])..];
    }
  }

  lemma DigitIsNoBlank(c: char)
    requires IsDigit(c) || c == '+' || c == '-'
    ensures !IsSpace(c)
  {
  }

  /** An unsigned number is read from blanks and digits, however many zeros lead, as long as it fits. */
  lemma UintIsRead(w: string, d: string, rest: string, limit: nat)
    requires Blanks(w) && Digits(d) && EndsNumber(rest) && DecimalValue(d) < limit
    ensures ScanUint(w + d + rest, limit) == Some((DecimalValue(d), rest))
  {
    hide SkipSpace, Leading, IsSpace, IsDigit, DecimalValue;
    assert d[0] in d;
    DigitIsNoBlank(d[0]);
    assert w + d + rest == w + (d + rest) && (d + rest)[0] == d[0];
    SkipBlanks(w, d + rest);
    LeadingOf(d, rest);
    assert (d + rest)[..|d|] == d && (d + rest)[|d|..] == rest;
  }

  lemma ReadUint(s: string, limit: nat) returns (w: string, d: string)
    requires ScanUint(s, limit).Some?
    ensures var (n, rest) := ScanUint(s, limit).value;
            Blanks(w) && Digits(d) && EndsNumber(rest) && s == w + d + rest && n == DecimalValue(d) < limit
  {
    hide SkipSpace, Leading, IsSpace, IsDigit, DecimalValue;
    w := SkippedBlanks(s);
    var t := SkipSpace(s).value;
    LeadingDigits(t);
    d := t[..Leading(t)];
    assert t == d + t[Leading(t)..];
  }

  /** The version is nineteen, behind blanks and a plus sign perhaps. */
  predicate Nineteen(w: string, sign: string, d: string) {
    Blanks(w) && (sign == "" || sign == "+") && Digits(d) && DecimalValue(d) == 19
  }

  lemma NineteenIsRead(w: string, sign: string, d: string, rest: string)
    requires Nineteen(w, sign, d) && EndsNumber(rest)
    ensures ScanVersion("v=" + (w + sign + d + rest)) == Some(19)
  {
    hide SkipSpace, Leading, IsSpace, DecimalValue;
    var u := d + rest;
    var t := sign + u;
    assert d[0] in d && u[0] == d[0];
    assert t[0] == if sign == "" then d[0] else '+';
    DigitIsNoBlank(t[0]);
    assert w + sign + d + rest == w + t;
    SkipBlanks(w, t);
    assert (if sign == "" then t else t[1..]) == u;
    LeadingOf(d, rest);
    assert u[..|d|] == d;
    var s := "v=" + (w + sign + d + rest);
    assert s[2..] == w + t;
  }

  lemma SignApart(t: string) returns (sign: string, u: string)
    ensures t == sign + u && sign in ["", "+", "-"]
    ensures sign == "" <==> !(t != "" && (t[0] == '+' || t[0] == '-'))
    ensures u == if sign == "" then t else t[1..]
  {
    if t != "" && (t[0] == '+' || t[0] == '-') {
      sign, u := [t[0]], t[1..];
    } else {
      sign, u := "", t;
    }
  }

  lemma ReadInt(s: string) returns (w: string, sign: string, d: string, rest: string)
    requires ScanInt(s).Some?
    ensures s == w + (sign + (d + rest)) && Blanks(w) && Digits(d) && EndsNumber(rest) && sign in ["", "+", "-"]
    ensures var n: int := DecimalValue(d); ScanInt(s).value.0 == if sign == "-" then -n else n
  {
    hide SkipSpace, Leading, Blanks, IsDigit, DecimalValue;
    w := SkippedBlanks(s);
    var t := SkipSpace(s).value;
    var u;
    sign, u := SignApart(t);
    LeadingDigits(u);
    d, rest := u[..Leading(u)], u[Leading(u)..];
    assert u == d + rest;
  }

  lemma ReadNineteen(s: string) returns (w: string, sign: string, d: string, rest: string)
    requires ScanVersion(s) == Some(19)
    ensures s == "v=" + (w + sign + d + rest) && Nineteen(w, sign, d) && EndsNumber(rest)
  {
    hide ScanInt, Blanks, IsDigit, DecimalValue;
    w, sign, d, rest := ReadInt(s[2..]);
    assert s == "v=" + s[2..];
    assert w + (sign + (d + rest)) == w + sign + d + rest;
  }

  // ---- the whole string --------------------------------------------------------------------

  /** The pieces of an accepted string: what may stand around the numbers, and the numerals and texts themselves. */
  datatype Pieces = Pieces(before: string, v: string, sign: string, version: string, afterVersion: string,
                           m: string, memory: string, t: string, time: string, p: string, lanes: string, after: string,
                           salt: string, hash: string)

  predicate CostsFine(q: Pieces) {
    && Blanks(q.m) && Digits(q.memory) && DecimalValue(q.memory) < 0x1_0000_0000
    && Blanks(q.t) && Digits(q.time) && DecimalValue(q.time) < 0x1_0000_0000
    && Blanks(q.p) && Digits(q.lanes) && DecimalValue(q.lanes) < 0x100 && EndsNumber(q.after)
  }

  function CostsText(q: Pieces): string {
    "m=" + (q.m + q.memory + (",t=" + (q.t + q.time + (",p=" + (q.p + q.lanes + q.after)))))
  }

  function VersionText(q: Pieces): string {
    "v=" + (q.v + q.sign + q.version + q.afterVersion)
  }

  /** A text of the standard alphabet of a length that some number of bytes has, line breaks not counted. */
  predicate TextFine(s: string) {
    Decodable(WithoutBreaks(s))
  }

  predicate Fine(q: Pieces) {
    && NoDollar(q.before) && NoDollar(VersionText(q)) && NoDollar(CostsText(q)) && NoDollar(q.salt) && NoDollar(q.hash)
    && Nineteen(q.v, q.sign, q.version) && EndsNumber(q.afterVersion)
    && CostsFine(q) && TextFine(q.salt) && TextFine(q.hash)
  }

  function Whole(q: Pieces): string {
    q.before + ['$']
    + ("argon2id" + ['$'] + (VersionText(q) + ['$'] + (CostsText(q) + ['$'] + (q.salt + ['$'] + q.hash))))
  }

  function Read(q: Pieces): Params
    requires Fine(q)
  {
    Params(DecimalValue(q.memory), DecimalValue(q.time), DecimalValue(q.lanes),
           Bytes(WithoutBreaks(q.salt)), Bytes(WithoutBreaks(q.hash)))
  }

  lemma CostsAreRead(q: Pieces)
    requires CostsFine(q)
    ensures ScanCosts(CostsText(q)) == Some((DecimalValue(q.memory), DecimalValue(q.time), DecimalValue(q.lanes)))
  {
    hide ScanUint, DecimalValue, Blanks, Digits;
    var afterT := ",p=" + (q.p + q.lanes + q.after);
    var afterM := ",t=" + (q.t + q.time + afterT);
    UintIsRead(q.m, q.memory, afterM, 0x1_0000_0000);
    UintIsRead(q.t, q.time, afterT, 0x1_0000_0000);
    UintIsRead(q.p, q.lanes, q.after, 0x100);
    assert CostsText(q)[2..] == q.m + q.memory + afterM;
    assert afterM[3..] == q.t + q.time + afterT && afterT[3..] == q.p + q.lanes + q.after;
  }

  lemma ReadCosts(s: string) returns (q: Pieces)
    requires ScanCosts(s).Some?
    ensures CostsFine(q) && s == CostsText(q)
    ensures ScanCosts(s).value == (DecimalValue(q.memory), DecimalValue(q.time), DecimalValue(q.lanes))
  {
    hide ScanUint, DecimalValue, Blanks, Digits;
    var s1 := s[2..];
    var m, memory := ReadUint(s1, 0x1_0000_0000);
    var afterM := ScanUint(s1, 0x1_0000_0000).value.1;
    var s2 := afterM[3..];
    var t, time := ReadUint(s2, 0x1_0000_0000);
    var afterT := ScanUint(s2, 0x1_0000_0000).value.1;
    var s3 := afterT[3..];
    var p, lanes := ReadUint(s3, 0x100);
    q := Pieces("", "", "", "", "", m, memory, t, time, p, lanes, ScanUint(s3, 0x100).value.1, "", "");
    assert afterM == ",t=" + s2 && afterT == ",p=" + s3 && s == "m=" + s1;
  }

  /** Every string put together from fine pieces is accepted, and read for what they say. */
  lemma FinePiecesAreAccepted(q: Pieces)
    requires Fine(q)
    ensures Parse(Whole(q)) == Some(Read(q))
  {
    hide Split, ScanVersion, ScanCosts, VersionText, CostsText, Decodable, Bytes, WithoutBreaks, DecimalValue, Nineteen;
    SplitFirst(q.before,
               "argon2id" + ['$'] + (VersionText(q) + ['$'] + (CostsText(q) + ['$'] + (q.salt + ['$'] + q.hash))), '$');
    SplitFirst("argon2id", VersionText(q) + ['$'] + (CostsText(q) + ['$'] + (q.salt + ['$'] + q.hash)), '$');
    SplitFirst(VersionText(q), CostsText(q) + ['$'] + (q.salt + ['$'] + q.hash), '$');
    SplitFirst(CostsText(q), q.salt + ['$'] + q.hash, '$');
    SplitFirst(q.salt, q.hash, '$');
    SplitOne(q.hash, '$');
    assert Split(Whole(q), '$') == [q.before, "argon2id", VersionText(q), CostsText(q), q.salt, q.hash];
    VersionIsRead(q);
    CostsAreRead(q);
  }

  lemma VersionIsRead(q: Pieces)
    requires Nineteen(q.v, q.sign, q.version) && EndsNumber(q.afterVersion)
    ensures ScanVersion(VersionText(q)) == Some(19)
  {
    hide ScanVersion, Nineteen;
    NineteenIsRead(q.v, q.sign, q.version, q.afterVersion);
  }

  lemma {:induction false} PiecesHaveNoSeparator(s: string, sep: char)
    ensures forall part <- Split(s, sep) :: sep !in part
    decreases |s|
  {
    hide Split;
    SplitAtFirst(s, sep);
    var parts := Split(s, sep);
    if |parts| > 1 {
      PiecesHaveNoSeparator(s[|parts[0]| + 1..], sep);
      assert parts == [parts[0]] + parts[1..];
    }
  }

  /** And nothing else is: an accepted string comes apart into such pieces, which say what was read. */
  lemma AcceptedComesApart(s: string) returns (q: Pieces)
    requires Parse(s).Some?
    ensures Fine(q) && s == Whole(q) && Parse(s) == Some(Read(q))
  {
    hide Split, ScanVersion, ScanCosts, VersionText, CostsText, Decodable, Bytes, WithoutBreaks, DecimalValue, Nineteen;
    hide CostsFine;
    var parts := Split(s, '$');
    SixPieces(s, '$');
    PiecesHaveNoSeparator(s, '$');
    var v, sign, version, afterVersion := ReadNineteen(parts[2]);
    var c := ReadCosts(parts[3]);
    q := c.(before := parts[0], v := v, sign := sign, version := version, afterVersion := afterVersion,
            salt := parts[4], hash := parts[5]);
    SameTexts(c, q, parts[2]);
    assert forall i | 0 <= i < 6 :: parts[i] in parts;
  }

  lemma SameTexts(c: Pieces, q: Pieces, version: string)
    requires version == "v=" + (q.v + q.sign + q.version + q.afterVersion) && CostsFine(c)
    requires q == c.(before := q.before, v := q.v, sign := q.sign, version := q.version, afterVersion := q.afterVersion,
                     salt := q.salt, hash := q.hash)
    ensures VersionText(q) == version && CostsText(q) == CostsText(c) && CostsFine(q)
  {
    hide Blanks, Digits, DecimalValue;
  }
}
