/** Exactly which of the strings the parser accepts are the ones the printer writes. */
module PhcCanonical {
  import opened Wrappers
  import opened Text
  import opened Base64
  import opened Phc

  /** A numeral behind its name. */
  predicate IsSetting(s: string, name: string) {
    name <= s && IsNumeral(s[|name|..])
  }

  /** Three settings separated by commas: no blanks, no leading zeros, nothing behind the last number. */
  predicate CanonicalCosts(s: string) {
    var parts := Split(s, ',');
    |parts| == 3 && IsSetting(parts[0], "m=") && IsSetting(parts[1], "t=") && IsSetting(parts[2], "p=")
  }

  /** Base64 without line breaks whose spare bits are zero. */
  predicate CanonicalText(s: string) {
    Decodable(s) && NoSpareBits(s)
  }

  predicate Canonical(s: string) {
    var parts := Split(s, '$');
    && |parts| == 6 && parts[0] == "" && parts[1] == ARGON2ID && parts[2] == "v=19"
    && CanonicalCosts(parts[3]) && CanonicalText(parts[4]) && CanonicalText(parts[5])
  }

  // ---- what is printed is canonical --------------------------------------------------------

  predicate NoComma(s: string) {
    ',' !in s
  }

  lemma NumeralHasNoComma(n: nat)
    ensures NoComma(Decimal(n)) && IsNumeral(Decimal(n))
  {
    hide Decimal;
    DecimalIsNumeral(n);
    assert forall c <- Decimal(n) :: IsDigit(c);
  }

  lemma SplitCosts(p: Params)
    ensures Split(Costs(p), ',')
        == ["m=" + Decimal(p.memoryKiB), "t=" + Decimal(p.iterations), "p=" + Decimal(p.threads)]
  {
    hide Decimal, Split;
    NumeralHasNoComma(p.memoryKiB);
    NumeralHasNoComma(p.iterations);
    NumeralHasNoComma(p.threads);
    var m, t, l := "m=" + Decimal(p.memoryKiB), "t=" + Decimal(p.iterations), "p=" + Decimal(p.threads);
    assert NoComma(m) && NoComma(t) && NoComma(l);
    assert Costs(p) == m + [','] + (t + [','] + l);
    SplitFirst(m, t + [','] + l, ',');
    SplitFirst(t, l, ',');
    SplitOne(l, ',');
  }

  lemma SettingOfDecimal(name: string, n: nat)
    ensures IsSetting(name + Decimal(n), name)
  {
    hide Decimal;
    DecimalIsNumeral(n);
    assert (name + Decimal(n))[|name|..] == Decimal(n);
  }

  lemma PrintedCostsAreCanonical(p: Params)
    ensures CanonicalCosts(Costs(p))
  {
    hide Decimal, Split, Costs;
    SplitCosts(p);
    SettingOfDecimal("m=", p.memoryKiB);
    SettingOfDecimal("t=", p.iterations);
    SettingOfDecimal("p=", p.threads);
  }

  lemma PrintedIsCanonical(p: Params)
    ensures Canonical(Print(p))
  {
    hide Encode, Costs, Split, CanonicalCosts, Decodable, NoSpareBits, Decimal;
    assert Decimal(19) == "19" by { TwoDigits(); }
    SplitLoosely(p, "", "", "");
    assert Print(p) == Loosely(p, "", "", "");
    assert "v=" + "19" + "" == "v=19" && Costs(p) + "" == Costs(p);
    PrintedCostsAreCanonical(p);
    EncodeSparesNoBits(p.salt);
    EncodeSparesNoBits(p.hash);
  }

  lemma TwoDigits()
    ensures Decimal(19) == "19"
  {
  }

  // ---- a canonical string that parses is the printed one -----------------------------------

  lemma FirstPiece(s: string, sep: char) returns (rest: string)
    requires |Split(s, sep)| > 1
    ensures s == Split(s, sep)[0] + [sep] + rest && Split(rest, sep) == Split(s, sep)[1..]
  {
    hide Split;
    SplitAtFirst(s, sep);
    rest := s[|Split(s, sep)[0]| + 1..];
  }

  /** Three pieces put back together. */
  lemma ThreePieces(s: string, sep: char)
    requires |Split(s, sep)| == 3
    ensures var q := Split(s, sep); s == q[0] + [sep] + (q[1] + [sep] + q[2])
  {
    hide Split;
    var rest := FirstPiece(s, sep);
    var last := FirstPiece(rest, sep);
    SplitAtFirst(last, sep);
    assert Split(rest, sep)[0] == Split(s, sep)[1] && Split(last, sep)[0] == Split(s, sep)[2];
  }

  lemma SixPieces(s: string, sep: char)
    requires |Split(s, sep)| == 6
    ensures var q := Split(s, sep);
            s == q[0] + [sep] + (q[1] + [sep] + (q[2] + [sep] + (q[3] + [sep] + (q[4] + [sep] + q[5]))))
  {
    hide Split;
    var q := Split(s, sep);
    var r1 := FirstPiece(s, sep);
    var r2 := FirstPiece(r1, sep);
    var r3 := FirstPiece(r2, sep);
    assert Split(r1, sep)[0] == q[1] && Split(r2, sep)[0] == q[2];
    assert Split(r3, sep) == q[3..];
    ThreePieces(r3, sep);
  }

  /** The numerals of canonical costs. */
  lemma CostsTakenApart(s: string) returns (m: string, t: string, p: string)
    requires CanonicalCosts(s)
    ensures s == "m=" + (m + (",t=" + (t + (",p=" + p)))) && IsNumeral(m) && IsNumeral(t) && IsNumeral(p)
  {
    hide Split, IsNumeral;
    var q := Split(s, ',');
    ThreePieces(s, ',');
    m, t, p := q[0][2..], q[1][2..], q[2][2..];
    assert q[0] == "m=" + m && q[1] == "t=" + t && q[2] == "p=" + p;
    CommasJoined(m, t, p);
  }

  lemma CommasJoined(m: string, t: string, p: string)
    ensures ("m=" + m) + [','] + (("t=" + t) + [','] + ("p=" + p)) == "m=" + (m + (",t=" + (t + (",p=" + p))))
  {
    assert [','] + ("p=" + p) == ",p=" + p && [','] + ("t=" + t) == ",t=" + t;
    assert ("t=" + t) + [','] + ("p=" + p) == "t=" + (t + (",p=" + p));
    var rest := t + (",p=" + p);
    assert [','] + ("t=" + rest) == ",t=" + rest;
    assert ("m=" + m) + [','] + ("t=" + rest) == "m=" + (m + (",t=" + rest));
  }

  lemma CanonicalCostsArePrinted(s: string, p: Params)
    requires CanonicalCosts(s) && ScanCosts(s) == Some((p.memoryKiB, p.iterations, p.threads))
    ensures s == Costs(p)
  {
    hide CanonicalCosts, Decimal, DecimalValue, ScanUint;
    var m, t, l := CostsTakenApart(s);
    var afterT := ",p=" + l;
    var afterM := ",t=" + (t + afterT);
    assert s == "m=" + (m + afterM) && s[2..] == m + afterM;
    assert afterM[3..] == t + afterT && afterT[3..] == l && l + "" == l;
    ScanUintOfDigits(m, afterM, 0x1_0000_0000);
    ScanUintOfDigits(t, afterT, 0x1_0000_0000);
    ScanUintOfDigits(l, "", 0x100);
    DecimalOfDecimalValue(m);
    DecimalOfDecimalValue(t);
    DecimalOfDecimalValue(l);
  }

  /** Of the strings that parse to `p`, the printed one is the canonical one: nothing before the first
      separator, the version spelled out, numbers without blanks or leading zeros and nothing behind the
      last, base64 without line breaks or spare bits. */
  lemma PrintedExactly(s: string, p: Params)
    requires Parse(s) == Some(p)
    ensures s == Print(p) <==> Canonical(s)
  {
    hide Print, Canonical;
    PrintedIsCanonical(p);
    if Canonical(s) {
      CanonicalIsPrinted(s, p);
    }
  }

  lemma CanonicalIsPrinted(s: string, p: Params)
    requires Parse(s) == Some(p) && Canonical(s)
    ensures s == Print(p)
  {
    hide Split, ScanVersion, ScanCosts, Decode, Decimal, Encode, Costs, CanonicalCosts, Decodable, NoSpareBits;
    var q := Split(s, '$');
    SixPieces(s, '$');
    CanonicalCostsArePrinted(q[3], p);
    EncodeOfDecode(q[4]);
    EncodeOfDecode(q[5]);
    TwoDigits();
    assert Print(p) == q[0] + "$" + (q[1] + "$" + (q[2] + "$" + (q[3] + "$" + (q[4] + "$" + q[5]))));
  }

  /** A canonical string is refused only for a number that does not fit. */
  lemma CanonicalParsesExactly(s: string)
    requires Canonical(s)
    ensures Parse(s).Some? <==> exists p :: s == Print(p)
  {
    hide Parse, Print, Canonical;
    if Parse(s).Some? {
      CanonicalIsPrinted(s, Parse(s).value);
    }
    if p :| s == Print(p) {
      ParseOfPrint(p);
    }
  }

  /** What the parser tolerates is accepted and yet never printed. */
  lemma ToleratedIsNotPrinted(p: Params, before: string, afterVersion: string, afterCosts: string)
    requires NoDollar(before) && NoDollar(afterVersion) && NoDollar(afterCosts)
    requires EndsNumber(afterVersion) && EndsNumber(afterCosts)
    requires before != "" || afterVersion != "" || afterCosts != ""
    ensures var s := Loosely(p, before, afterVersion, afterCosts);
            Parse(s) == Some(p) && s != Print(p) && !Canonical(s)
  {
    hide Split, Costs, Decimal, Encode, Parse, Canonical, Loosely;
    var s, t := Loosely(p, before, afterVersion, afterCosts), Loosely(p, "", "", "");
    ParseIsTolerant(p, before, afterVersion, afterCosts);
    SplitLoosely(p, before, afterVersion, afterCosts);
    SplitLoosely(p, "", "", "");
    assert Split(s, '$') != Split(t, '$') by {
      assert |Costs(p) + afterCosts| == |Costs(p)| + |afterCosts|;
      assert |Split(s, '$')[2]| - |Split(t, '$')[2]| == |afterVersion|;
      assert |Split(s, '$')[3]| - |Split(t, '$')[3]| == |afterCosts|;
    }
    assert t == Print(p) by { LooselyOfNothing(p); }
    PrintedExactly(s, p);
  }

  lemma LooselyOfNothing(p: Params)
    ensures Loosely(p, "", "", "") == Print(p)
  {
    hide Costs, Decimal, Encode;
  }

  lemma {:induction false} LeadingZero(d: string)
    requires forall c <- d :: IsDigit(c)
    ensures (forall c <- "0" + d :: IsDigit(c)) && DecimalValue("0" + d) == DecimalValue(d)
  {
    if d != "" {
      var z := "0" + d;
      assert z[..|z| - 1] == "0" + d[..|d| - 1];
      LeadingZero(d[..|d| - 1]);
    }
  }

  /** A leading zero does not stop the parser ... */
  lemma LeadingZeroIsIgnored(n: uint32, rest: string)
    requires EndsNumber(rest)
    ensures ScanUint("0" + Decimal(n) + rest, 0x1_0000_0000) == Some((n, rest)) && !IsNumeral("0" + Decimal(n))
  {
    hide ScanUint, Decimal, DecimalValue;
    LeadingZero(Decimal(n));
    ScanUintOfDigits("0" + Decimal(n), rest, 0x1_0000_0000);
    DecimalValueOfDecimal(n);
  }

  /** ... nor do line breaks or spare bits the decoder ... */
  lemma SpareBitsAreIgnored()
    ensures Decode("AB") == Decode("A\nA") == Some([0]) && Encode([0]) == "AA"
  {
    assert WithoutBreaks("AB") == "AB" && WithoutBreaks("A\nA") == "AA";
  }

  /** ... nor a sign the version. */
  lemma PlusNineteen()
    ensures ScanVersion("v=+19") == Some(ARGON2_VERSION)
  {
    assert "v=+19"[2..] == "+19" && "+19"[1..] == "19" && "19" + "" == "19";
    LeadingOf("19", "");
    assert "19"[..2] == "19" && "19"[..1] == "1" && "1"[..0] == "";
    assert DecimalValue("19") == 19;
  }
}
