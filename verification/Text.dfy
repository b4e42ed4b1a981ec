/** The string functions of Go's standard library that the modelled code calls. */
module Text {
  predicate IsSpace(c: char) {
    var r := c as int;
    || 0x09 <= r <= 0x0D || r == 0x20 || r == 0x85 || r == 0xA0 || r == 0x1680
    || 0x2000 <= r <= 0x200A || r == 0x2028 || r == 0x2029 || r == 0x202F || r == 0x205F || r == 0x3000
  }

  /** The 25 characters Unicode calls white space. */
  lemma SpacesAreUnicodeWhiteSpace(c: char)
    ensures IsSpace(c) <==>
            c as int in {0x9, 0xA, 0xB, 0xC, 0xD, 0x20, 0x85, 0xA0, 0x1680, 0x2000, 0x2001, 0x2002, 0x2003, 0x2004,
                         0x2005, 0x2006, 0x2007, 0x2008, 0x2009, 0x200A, 0x2028, 0x2029, 0x202F, 0x205F, 0x3000}
  {
  }

  function TrimLeft(s: string): string {
    if s != "" && IsSpace(s[0]) then TrimLeft(s[1..]) else s
  }

  function TrimRight(s: string): string {
    if s != "" && IsSpace(s[|s| - 1]) then TrimRight(s[..|s| - 1]) else s
  }

  function TrimSpace(s: string): string {
    TrimRight(TrimLeft(s))
  }

  /** Simple lower-casing. Besides A-Z the only characters whose lower case is ASCII are U+0130 and U+212A;
      the lower case of any other character is taken to be the character itself. */
  function LowerChar(c: char): char {
    if 'A' <= c <= 'Z' then c + 32 as char
    else if c as int == 0x130 then 'i'
    else if c as int == 0x212A then 'k'
    else c
  }

  function Lower(s: string): (l: string)
    ensures |l| == |s| && forall i | 0 <= i < |s| :: l[i] == LowerChar(s[i])
  {
    seq(|s|, i requires 0 <= i < |s| => LowerChar(s[i]))
  }

  lemma LowerIdempotent(s: string)
    ensures Lower(Lower(s)) == Lower(s)
  {
    forall i | 0 <= i < |s|
      ensures LowerChar(LowerChar(s[i])) == LowerChar(s[i])
    {
    }
  }

  /** The same character, or the two cases of one of the letters a to z. */
  predicate SameLetter(c: char, d: char) {
    || c == d
    || ('A' <= c <= 'Z' && d as int == c as int + 32)
    || ('A' <= d <= 'Z' && c as int == d as int + 32)
  }

  predicate SameUpToCase(s: string, t: string) {
    |s| == |t| && forall i | 0 <= i < |s| :: SameLetter(s[i], t[i])
  }

  lemma LowerForgetsCase(s: string, t: string)
    requires SameUpToCase(s, t)
    ensures Lower(s) == Lower(t)
  {
    forall i | 0 <= i < |s|
      ensures LowerChar(s[i]) == LowerChar(t[i])
    {
      assert SameLetter(s[i], t[i]);
    }
  }

  lemma {:induction false} TrimLeftForgetsCase(s: string, t: string)
    requires SameUpToCase(s, t)
    ensures SameUpToCase(TrimLeft(s), TrimLeft(t))
  {
    if s != "" {
      assert SameLetter(s[0], t[0]);
      assert SameUpToCase(s[1..], t[1..]);
      TrimLeftForgetsCase(s[1..], t[1..]);
    }
  }

  lemma {:induction false} TrimRightForgetsCase(s: string, t: string)
    requires SameUpToCase(s, t)
    ensures SameUpToCase(TrimRight(s), TrimRight(t))
  {
    if s != "" {
      var n := |s| - 1;
      assert SameLetter(s[n], t[n]);
      assert SameUpToCase(s[..n], t[..n]);
      TrimRightForgetsCase(s[..n], t[..n]);
    }
  }

  lemma {:induction false} TrimLeftExactly(s: string) returns (a: nat)
    ensures a <= |s| && TrimLeft(s) == s[a..]
    ensures (forall i | 0 <= i < a :: IsSpace(s[i])) && (a < |s| ==> !IsSpace(s[a]))
  {
    a := 0;
    if s != "" && IsSpace(s[0]) {
      var n := TrimLeftExactly(s[1..]);
      a := n + 1;
      forall i | 0 <= i < a
        ensures IsSpace(s[i])
      {
        assert i > 0 ==> s[i] == s[1..][i - 1];
      }
    }
  }

  lemma {:induction false} TrimRightExactly(s: string) returns (b: nat)
    ensures b <= |s| && TrimRight(s) == s[..b]
    ensures (forall i | b <= i < |s| :: IsSpace(s[i])) && (0 < b ==> !IsSpace(s[b - 1]))
  {
    b := |s|;
    if s != "" && IsSpace(s[|s| - 1]) {
      b := TrimRightExactly(s[..|s| - 1]);
      forall i | b <= i < |s|
        ensures IsSpace(s[i])
      {
        assert i < |s| - 1 ==> s[i] == s[..|s| - 1][i];
      }
    }
  }

  /** Trimming takes off exactly the blanks at both ends. */
  lemma TrimSpaceExactly(s: string) returns (a: nat, b: nat)
    ensures a <= b <= |s| && TrimSpace(s) == s[a..b]
    ensures forall i | 0 <= i < a || b <= i < |s| :: IsSpace(s[i])
    ensures a < b ==> !IsSpace(s[a]) && !IsSpace(s[b - 1])
  {
    hide IsSpace, TrimLeft, TrimRight;
    a := TrimLeftExactly(s);
    var t := s[a..];
    var n := TrimRightExactly(t);
    b := a + n;
    forall i | b <= i < |s|
      ensures IsSpace(s[i])
    {
      assert s[i] == t[i - a];
    }
    if a < b {
      assert t[n - 1] == s[b - 1];
    }
  }

  /** The number of bytes of the UTF-8 encoding, which is what len counts. */
  function Utf8Length(s: string): nat {
    if s == "" then 0
    else
      var r := s[0] as int;
      (if r < 0x80 then 1 else if r < 0x800 then 2 else if r < 0x10000 then 3 else 4) + Utf8Length(s[1..])
  }

  /** The ranges of section 3 of RFC 3629. */
  lemma Utf8LengthOfOne(c: char)
    ensures var n := Utf8Length([c]);
            && 1 <= n <= 4 && (n == 1 <==> c as int <= 0x7F) && (n <= 2 <==> c as int <= 0x7FF)
            && (n <= 3 <==> c as int <= 0xFFFF)
  {
    assert [c][1..] == "";
  }

  lemma {:induction false} Utf8LengthOfConcat(s: string, t: string)
    ensures Utf8Length(s + t) == Utf8Length(s) + Utf8Length(t)
  {
    if s == "" {
      assert s + t == t;
    } else {
      assert (s + t)[1..] == s[1..] + t;
      Utf8LengthOfConcat(s[1..], t);
    }
  }

  /** ASCII text has as many bytes as characters, and no text has fewer. */
  lemma {:induction false} Utf8LengthOfAscii(s: string)
    ensures |s| <= Utf8Length(s) <= 4 * |s|
    ensures Utf8Length(s) == |s| <==> forall c <- s :: c as int < 0x80
  {
    if s != "" {
      Utf8LengthOfAscii(s[1..]);
      assert s[0] in s && forall c <- s[1..] :: c in s;
      assert forall c <- s :: c == s[0] || c in s[1..];
    }
  }

  predicate IsDigit(c: char) {
    '0' <= c <= '9'
  }

  function DigitChar(d: int): (c: char)
    requires 0 <= d < 10
    ensures IsDigit(c) && c as int - '0' as int == d
  {
    '0' + d as char
  }

  /** The verb %d for a number that is not negative. */
  function Decimal(n: nat): (s: string)
    ensures s != "" && forall c <- s :: IsDigit(c)
  {
    if n < 10 then [DigitChar(n)] else Decimal(n / 10) + [DigitChar(n % 10)]
  }

  /** The number a string of digits denotes. */
  function DecimalValue(s: string): nat
    requires forall c <- s :: IsDigit(c)
  {
    if s == "" then 0
    else
      assert IsDigit(s[|s| - 1]);
      10 * DecimalValue(s[..|s| - 1]) + (s[|s| - 1] as int - '0' as int)
  }

  lemma {:induction false} DecimalValueOfDecimal(n: nat)
    ensures DecimalValue(Decimal(n)) == n
  {
    if n >= 10 {
      DecimalValueOfDecimal(n / 10);
      var s := Decimal(n);
      assert s[..|s| - 1] == Decimal(n / 10);
    }
  }

  /** Digits without a leading zero. */
  predicate IsNumeral(d: string) {
    d != "" && (forall c <- d :: IsDigit(c)) && (|d| > 1 ==> d[0] != '0')
  }

  lemma {:induction false} DecimalIsNumeral(n: nat)
    ensures IsNumeral(Decimal(n)) && (n > 0 ==> Decimal(n)[0] != '0')
  {
    if n >= 10 {
      DecimalIsNumeral(n / 10);
    }
  }

  lemma {:induction false} DecimalOfDecimalValue(d: string)
    requires IsNumeral(d)
    ensures Decimal(DecimalValue(d)) == d
  {
    var init, last := d[..|d| - 1], d[|d| - 1];
    assert IsDigit(last) && d == init + [last];
    if init != "" {
      assert init[0] == d[0];
      DecimalOfDecimalValue(init);
      assert DecimalValue(init) > 0;
      assert DecimalValue(d) / 10 == DecimalValue(init);
    } else {
      assert DecimalValue(init) == 0;
    }
  }

  /** The pieces between the separators; one piece when there is none. */
  function Split(s: string, sep: char): (parts: seq<string>)
    ensures |parts| >= 1
  {
    if s == "" then [""]
    else
      var parts := Split(s[1..], sep);
      if s[0] == sep then [""] + parts else [[s[0]] + parts[0]] + parts[1..]
  }

  lemma {:induction false} SplitOne(p: string, sep: char)
    requires sep !in p
    ensures Split(p, sep) == [p]
  {
    if p != "" {
      SplitOne(p[1..], sep);
      assert p == [p[0]] + p[1..];
    }
  }

  lemma {:induction false} SplitFirst(p: string, rest: string, sep: char)
    requires sep !in p
    ensures Split(p + [sep] + rest, sep) == [p] + Split(rest, sep)
  {
    var s := p + [sep] + rest;
    if p == "" {
      assert s == [sep] + rest;
    } else {
      SplitFirst(p[1..], rest, sep);
      assert s[1..] == p[1..] + [sep] + rest && s[0] == p[0];
      assert p == [p[0]] + p[1..];
    }
  }

  /** The first piece ends at the first separator, and the others are the pieces of what follows it. */
  lemma {:induction false} SplitAtFirst(s: string, sep: char)
    ensures var parts := Split(s, sep);
            && sep !in parts[0] && |parts[0]| <= |s|
            && (|parts| == 1 ==> s == parts[0])
            && (|parts| > 1 ==>
                  && |parts[0]| < |s| && s == parts[0] + [sep] + s[|parts[0]| + 1..]
                  && Split(s[|parts[0]| + 1..], sep) == parts[1..])
  {
    if s != "" && s[0] != sep {
      SplitAtFirst(s[1..], sep);
      var p := Split(s[1..], sep)[0];
      assert s == [s[0]] + s[1..];
      if |Split(s, sep)| > 1 {
        assert s[1..][|p| + 1..] == s[|p| + 2..];
      }
    }
  }
}
