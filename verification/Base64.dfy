/** Base64 with the standard alphabet of section 4 of RFC 4648, without the padding section 3.2 lets one omit. */
module Base64 {
  import opened Wrappers

  type byte = b: int | 0 <= b < 256

  type sextet = d: int | 0 <= d < 64

  function Letter(d: sextet): char {
    if d < 26 then 'A' + d as char
    else if d < 52 then 'a' + (d - 26) as char
    else if d < 62 then '0' + (d - 52) as char
    else if d == 62 then '+'
    else '/'
  }

  predicate IsLetter(c: char) {
    'A' <= c <= 'Z' || 'a' <= c <= 'z' || '0' <= c <= '9' || c == '+' || c == '/'
  }

  function Digit(c: char): sextet
    requires IsLetter(c)
  {
    if 'A' <= c <= 'Z' then (c - 'A') as int
    else if 'a' <= c <= 'z' then (c - 'a') as int + 26
    else if '0' <= c <= '9' then (c - '0') as int + 52
    else if c == '+' then 62
    else 63
  }

  const CAPITALS := "ABCDEFGHIJKLMNOPQRSTUVWXYZ"
  const SMALL := "abcdefghijklmnopqrstuvwxyz"
  const FIGURES := "0123456789+/"

  lemma CapitalAt(d: nat)
    requires d < 26
    ensures CAPITALS[d] as int == 'A' as int + d
  {
    if d < 7 {
      assert d == 0 || d == 1 || d == 2 || d == 3 || d == 4 || d == 5 || d == 6;
    } else if d < 14 {
      assert d == 7 || d == 8 || d == 9 || d == 10 || d == 11 || d == 12 || d == 13;
    } else if d < 20 {
      assert d == 14 || d == 15 || d == 16 || d == 17 || d == 18 || d == 19;
    } else {
      assert d == 20 || d == 21 || d == 22 || d == 23 || d == 24 || d == 25;
    }
  }

  lemma SmallAt(d: nat)
    requires d < 26
    ensures SMALL[d] as int == 'a' as int + d
  {
    if d < 7 {
      assert d == 0 || d == 1 || d == 2 || d == 3 || d == 4 || d == 5 || d == 6;
    } else if d < 14 {
      assert d == 7 || d == 8 || d == 9 || d == 10 || d == 11 || d == 12 || d == 13;
    } else if d < 20 {
      assert d == 14 || d == 15 || d == 16 || d == 17 || d == 18 || d == 19;
    } else {
      assert d == 20 || d == 21 || d == 22 || d == 23 || d == 24 || d == 25;
    }
  }

  lemma FigureAt(d: nat)
    requires d < 12
    ensures FIGURES[d] == if d < 10 then '0' + d as char else if d == 10 then '+' else '/'
  {
    if d < 6 {
      assert d == 0 || d == 1 || d == 2 || d == 3 || d == 4 || d == 5;
    } else {
      assert d == 6 || d == 7 || d == 8 || d == 9 || d == 10 || d == 11;
    }
  }

  /** The letters are those of Table 1 of RFC 4648, in its order. */
  lemma LettersAreTheStandardAlphabet(d: sextet)
    ensures |CAPITALS + SMALL + FIGURES| == 64 && Letter(d) == (CAPITALS + SMALL + FIGURES)[d]
  {
    if d < 26 {
      CapitalAt(d);
    } else if d < 52 {
      SmallAt(d - 26);
    } else {
      FigureAt(d - 52);
    }
  }

  lemma DigitOfLetter(d: sextet)
    ensures IsLetter(Letter(d)) && Digit(Letter(d)) == d
  {
  }

  /** A whole group: three bytes as four letters. */
  function Quad(x: byte, y: byte, z: byte): string {
    [Letter(x / 4), Letter(x % 4 * 16 + y / 16), Letter(y % 16 * 4 + z / 64), Letter(z % 64)]
  }

  function Encode(bs: seq<byte>): string {
    if |bs| == 0 then ""
    else if |bs| == 1 then
      [Letter(bs[0] / 4), Letter(bs[0] % 4 * 16)]
    else if |bs| == 2 then
      [Letter(bs[0] / 4), Letter(bs[0] % 4 * 16 + bs[1] / 16), Letter(bs[1] % 16 * 4)]
    else
      Quad(bs[0], bs[1], bs[2]) + Encode(bs[3..])
  }

  /** Three bytes and the four letters written for them are the same number of 24 bits, first bits first. */
  lemma GroupsAreTheSameNumber(x: byte, y: byte, z: byte)
    ensures var q := Encode([x, y, z]);
            && |q| == 4 && (forall c <- q :: IsLetter(c))
            && Digit(q[0]) * 0x40000 + Digit(q[1]) * 0x1000 + Digit(q[2]) * 0x40 + Digit(q[3])
            == x * 0x10000 + y * 0x100 + z
  {
    hide Letter, Digit, IsLetter, Encode;
    EncodeOfThree([x, y, z]);
    DigitOfLetter(x / 4);
    DigitOfLetter(x % 4 * 16 + y / 16);
    DigitOfLetter(y % 16 * 4 + z / 64);
    DigitOfLetter(z % 64);
    SameNumber(x, y, z);
  }

  lemma SameNumber(x: byte, y: byte, z: byte)
    ensures x / 4 * 0x40000 + (x % 4 * 16 + y / 16) * 0x1000 + (y % 16 * 4 + z / 64) * 0x40 + z % 64
         == x * 0x10000 + y * 0x100 + z
  {
  }

  /** A shorter group is written like three bytes that end in zeros, without the letters nothing of it reaches. */
  lemma ShortGroupsAreCut(x: byte, y: byte)
    ensures Encode([x, y]) == Encode([x, y, 0])[..3] && Encode([x]) == Encode([x, 0, 0])[..2]
  {
    hide Letter;
    EncodeOfThree([x, y, 0]);
    EncodeOfThree([x, 0, 0]);
  }

  /** And longer texts are written group by group. */
  lemma EncodedGroupByGroup(bs: seq<byte>)
    requires |bs| >= 3
    ensures Encode(bs) == Encode(bs[..3]) + Encode(bs[3..])
  {
    hide Letter;
    var first := bs[..3];
    assert first[3..] == [] && first[0] == bs[0] && first[1] == bs[1] && first[2] == bs[2];
    EncodeOfThree(first);
  }

  lemma EncodeOfThree(bs: seq<byte>)
    requires |bs| == 3
    ensures Encode(bs) == Quad(bs[0], bs[1], bs[2])
  {
    hide Letter;
    assert bs[3..] == [];
    assert Encode(bs) == Quad(bs[0], bs[1], bs[2]) + "";
  }

  /** Line breaks inside the text are skipped. */
  function WithoutBreaks(s: string): string {
    if s == "" then ""
    else (if s[0] == '\r' || s[0] == '\n' then "" else [s[0]]) + WithoutBreaks(s[1..])
  }

  predicate Decodable(s: string) {
    |s| % 4 != 1 && forall c <- s :: IsLetter(c)
  }

  /** The bytes of a text; the bits a last, shorter group has to spare are not looked at. */
  function Bytes(s: string): seq<byte>
    requires Decodable(s)
  {
    if s == "" then []
    else
      assert IsLetter(s[0]) && IsLetter(s[1]);
      var a, b := Digit(s[0]), Digit(s[1]);
      if |s| == 2 then [a * 4 + b / 16]
      else
        assert IsLetter(s[2]);
        var c := Digit(s[2]);
        if |s| == 3 then [a * 4 + b / 16, b % 16 * 16 + c / 4]
        else
          assert IsLetter(s[3]);
          [a * 4 + b / 16, b % 16 * 16 + c / 4, c % 4 * 64 + Digit(s[3])] + Bytes(s[4..])
  }

  function Decode(s: string): Option<seq<byte>> {
    var t := WithoutBreaks(s);
    if Decodable(t) then Some(Bytes(t)) else None
  }

  lemma {:induction false} LettersHaveNoBreaks(s: string)
    requires forall c <- s :: IsLetter(c)
    ensures WithoutBreaks(s) == s
  {
    if s != "" {
      assert IsLetter(s[0]);
      LettersHaveNoBreaks(s[1..]);
    }
  }

  /** The sextets of three bytes put together again. */
  lemma Regroup(x: byte, y: byte, z: byte)
    ensures var a, b, c := x / 4, x % 4 * 16 + y / 16, y % 16 * 4 + z / 64;
            && a * 4 + b / 16 == x && b % 16 * 16 + c / 4 == y && c % 4 * 64 + z % 64 == z
            && (x % 4 * 16) / 16 == x % 4 && (y % 16 * 4) / 4 == y % 16
  {
  }

  lemma DecodableOfConcat(s: string, t: string)
    requires |s| == 4 && (forall c <- s :: IsLetter(c)) && Decodable(t)
    ensures Decodable(s + t)
  {
    hide IsLetter;
  }

  lemma BytesOfFour(s: string)
    requires |s| >= 4 && Decodable(s) && Decodable(s[4..])
    requires IsLetter(s[0]) && IsLetter(s[1]) && IsLetter(s[2]) && IsLetter(s[3])
    ensures var a: int, b: int, c: int, d: int := Digit(s[0]), Digit(s[1]), Digit(s[2]), Digit(s[3]);
            Bytes(s) == [a * 4 + b / 16, b % 16 * 16 + c / 4, c % 4 * 64 + d] + Bytes(s[4..])
  {
    hide Letter, Digit, IsLetter, Decodable;
  }

  lemma BytesOfQuad(x: byte, y: byte, z: byte, rest: string)
    requires Decodable(rest)
    ensures Decodable(Quad(x, y, z) + rest) && Bytes(Quad(x, y, z) + rest) == [x, y, z] + Bytes(rest)
  {
    hide Letter, Digit, IsLetter, Bytes;
    var a, b, c, d := x / 4, x % 4 * 16 + y / 16, y % 16 * 4 + z / 64, z % 64;
    DigitOfLetter(a);
    DigitOfLetter(b);
    DigitOfLetter(c);
    DigitOfLetter(d);
    Regroup(x, y, z);
    var s := Quad(x, y, z) + rest;
    assert s[4..] == rest && s[0] == Letter(a) && s[1] == Letter(b) && s[2] == Letter(c) && s[3] == Letter(d);
    DecodableOfConcat(Quad(x, y, z), rest);
    BytesOfFour(s);
  }

  lemma EmptyText()
    ensures Decodable("") && Bytes("") == []
  {
  }

  lemma BytesOfPair(x: byte)
    ensures var s := [Letter(x / 4), Letter(x % 4 * 16)]; Decodable(s) && Bytes(s) == [x]
  {
    hide Letter, Digit, IsLetter;
    var a, b := x / 4, x % 4 * 16;
    Regroup(x, 0, 0);
    DigitOfLetter(a);
    DigitOfLetter(b);
    assert Bytes([Letter(a), Letter(b)]) == [a * 4 + b / 16];
  }

  lemma BytesOfTriple(x: byte, y: byte)
    ensures var s := [Letter(x / 4), Letter(x % 4 * 16 + y / 16), Letter(y % 16 * 4)];
            Decodable(s) && Bytes(s) == [x, y]
  {
    hide Letter, Digit, IsLetter;
    var a, b, c := x / 4, x % 4 * 16 + y / 16, y % 16 * 4;
    Regroup(x, y, 0);
    DigitOfLetter(a);
    DigitOfLetter(b);
    DigitOfLetter(c);
    assert Bytes([Letter(a), Letter(b), Letter(c)]) == [a * 4 + b / 16, b % 16 * 16 + c / 4];
  }

  lemma {:induction false} BytesOfEncode(bs: seq<byte>)
    ensures Decodable(Encode(bs)) && Bytes(Encode(bs)) == bs
  {
    hide Letter, Digit, IsLetter, Bytes, Decodable;
    if |bs| == 0 {
      EmptyText();
    } else if |bs| == 1 {
      BytesOfPair(bs[0]);
    } else if |bs| == 2 {
      BytesOfTriple(bs[0], bs[1]);
    } else {
      BytesOfEncode(bs[3..]);
      BytesOfQuad(bs[0], bs[1], bs[2], Encode(bs[3..]));
      assert bs == [bs[0], bs[1], bs[2]] + bs[3..];
    }
  }

  /** Decoding undoes encoding. */
  lemma DecodeOfEncode(bs: seq<byte>)
    ensures Decode(Encode(bs)) == Some(bs)
  {
    BytesOfEncode(bs);
    LettersHaveNoBreaks(Encode(bs));
  }

  // ---- encoding undoes decoding ------------------------------------------------------------

  /** The bits that a last, shorter group has to spare are zero. */
  predicate NoSpareBits(t: string)
    requires Decodable(t)
  {
    && (|t| % 4 == 2 ==> var c := t[|t| - 1]; assert IsLetter(c); Digit(c) % 16 == 0)
    && (|t| % 4 == 3 ==> var c := t[|t| - 1]; assert IsLetter(c); Digit(c) % 4 == 0)
  }

  lemma LetterOfDigit(c: char)
    requires IsLetter(c)
    ensures Letter(Digit(c)) == c
  {
  }

  /** The bytes of four sextets taken apart again. */
  lemma Ungroup(a: sextet, b: sextet, c: sextet, d: sextet)
    ensures var x, y, z := a * 4 + b / 16, b % 16 * 16 + c / 4, c % 4 * 64 + d;
            && x / 4 == a && x % 4 * 16 + y / 16 == b && y % 16 * 4 + z / 64 == c && z % 64 == d
            && (b % 16 == 0 ==> x % 4 * 16 == b) && (c % 4 == 0 ==> y % 16 * 4 == c)
  {
  }

  lemma EncodeOfGroup(t: string)
    requires Decodable(t) && |t| >= 4
    ensures Decodable(t[4..]) && |Bytes(t)| >= 3 && Bytes(t)[3..] == Bytes(t[4..])
    ensures Encode(Bytes(t)) == t[..4] + Encode(Bytes(t[4..]))
  {
    hide Letter, Digit, IsLetter;
    assert IsLetter(t[0]) && IsLetter(t[1]) && IsLetter(t[2]) && IsLetter(t[3]);
    var a: int, b: int, c: int, d: int := Digit(t[0]), Digit(t[1]), Digit(t[2]), Digit(t[3]);
    LetterOfDigit(t[0]);
    LetterOfDigit(t[1]);
    LetterOfDigit(t[2]);
    LetterOfDigit(t[3]);
    Ungroup(a, b, c, d);
    var bs := Bytes(t);
    assert bs == [a * 4 + b / 16, b % 16 * 16 + c / 4, c % 4 * 64 + d] + Bytes(t[4..]);
    assert Quad(bs[0], bs[1], bs[2]) == [t[0], t[1], t[2], t[3]] == t[..4];
  }

  lemma EncodeOfPair(t: string)
    requires Decodable(t) && |t| == 2 && NoSpareBits(t)
    ensures Encode(Bytes(t)) == t
  {
    hide Letter, Digit, IsLetter;
    assert IsLetter(t[0]) && IsLetter(t[1]);
    var a: int, b: int := Digit(t[0]), Digit(t[1]);
    LetterOfDigit(t[0]);
    LetterOfDigit(t[1]);
    Ungroup(a, b, 0, 0);
    assert Bytes(t) == [a * 4 + b / 16];
  }

  lemma EncodeOfTriple(t: string)
    requires Decodable(t) && |t| == 3 && NoSpareBits(t)
    ensures Encode(Bytes(t)) == t
  {
    hide Letter, Digit, IsLetter;
    assert IsLetter(t[0]) && IsLetter(t[1]) && IsLetter(t[2]);
    var a: int, b: int, c: int := Digit(t[0]), Digit(t[1]), Digit(t[2]);
    LetterOfDigit(t[0]);
    LetterOfDigit(t[1]);
    LetterOfDigit(t[2]);
    Ungroup(a, b, c, 0);
    var bs := Bytes(t);
    assert bs == [a * 4 + b / 16, b % 16 * 16 + c / 4];
    assert Encode(bs) == [t[0], t[1], t[2]];
  }

  lemma EncodeOfNothing()
    ensures Encode([]) == ""
  {
  }

  lemma NoSpareBitsInRest(t: string)
    requires Decodable(t) && |t| >= 4
    ensures Decodable(t[4..]) && (NoSpareBits(t) <==> NoSpareBits(t[4..]))
  {
    hide Digit, IsLetter;
    if |t| > 4 {
      assert t[4..][|t| - 5] == t[|t| - 1];
    }
  }

  lemma {:induction false} EncodeOfBytes(t: string)
    requires Decodable(t) && NoSpareBits(t)
    ensures Encode(Bytes(t)) == t
  {
    hide Encode, Bytes, NoSpareBits, IsLetter;
    if |t| >= 4 {
      EncodeOfGroup(t);
      NoSpareBitsInRest(t);
      assert t == t[..4] + t[4..];
      EncodeOfBytes(t[4..]);
    } else if |t| == 2 {
      EncodeOfPair(t);
    } else if |t| == 3 {
      EncodeOfTriple(t);
    } else {
      EmptyText();
      EncodeOfNothing();
    }
  }

  lemma {:induction false} EncodeSparesNoBits(bs: seq<byte>)
    ensures Decodable(Encode(bs)) && NoSpareBits(Encode(bs))
  {
    hide Letter, Digit, IsLetter, Bytes;
    BytesOfEncode(bs);
    if |bs| == 1 {
      DigitOfLetter(bs[0] % 4 * 16);
    } else if |bs| == 2 {
      DigitOfLetter(bs[1] % 16 * 4);
    } else if |bs| >= 3 {
      EncodeSparesNoBits(bs[3..]);
      var s, rest := Encode(bs), Encode(bs[3..]);
      assert s == Quad(bs[0], bs[1], bs[2]) + rest;
      assert rest != "" ==> s[|s| - 1] == rest[|rest| - 1];
    }
  }

  /** A text is its own re-encoding exactly when it has no line breaks and no spare bits. */
  lemma EncodeOfDecode(t: string)
    requires Decode(t).Some?
    ensures Encode(Decode(t).value) == t <==> Decodable(t) && NoSpareBits(t)
  {
    if Decodable(t) {
      LettersHaveNoBreaks(t);
      if NoSpareBits(t) {
        EncodeOfBytes(t);
      }
    }
    EncodeSparesNoBits(Decode(t).value);
  }
}
