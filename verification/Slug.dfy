/** Slugs: the pattern a stored slug must match, and the slug derived from a title. */
module Slug {
  import opened Text

  predicate Alnum(c: char) {
    'a' <= c <= 'z' || '0' <= c <= '9'
  }

  predicate IsWord(w: string) {
    w != "" && forall c <- w :: Alnum(c)
  }

  function Joined(words: seq<string>): string {
    if words == [] then ""
    else if |words| == 1 then words[0]
    else words[0] + "-" + Joined(words[1..])
  }

  /** The language of the pattern: words joined by single hyphens. */
  ghost predicate MatchesSlugRe(s: string) {
    exists words: seq<string> :: words != [] && (forall w <- words :: IsWord(w)) && s == Joined(words)
  }

  /** A matcher for that language. */
  predicate IsSlug(s: string) {
    forall w <- Split(s, '-') :: IsWord(w)
  }

  /** One hyphen for every maximal run of characters that are neither a-z nor 0-9. */
  function Hyphenated(s: string): string {
    if s == "" then ""
    else if Alnum(s[0]) then [s[0]] + Hyphenated(s[1..])
    else (if |s| == 1 || Alnum(s[1]) then "-" else "") + Hyphenated(s[1..])
  }

  function TrimHyphensLeft(s: string): string {
    if s != "" && s[0] == '-' then TrimHyphensLeft(s[1..]) else s
  }

  function TrimHyphensRight(s: string): string {
    if s != "" && s[|s| - 1] == '-' then TrimHyphensRight(s[..|s| - 1]) else s
  }

  function Slugify(title: string): string {
    TrimHyphensRight(TrimHyphensLeft(Hyphenated(Lower(TrimSpace(title)))))
  }

  /** The maximal runs of letters and digits, in order. */
  function Runs(s: string): (words: seq<string>)
    ensures forall w <- words :: IsWord(w)
    ensures s != "" && Alnum(s[0]) ==> words != []
  {
    if s == "" then []
    else
      var rest := Runs(s[1..]);
      if !Alnum(s[0]) then rest
      else if |s| == 1 || !Alnum(s[1]) then [[s[0]]] + rest
      else
        assert IsWord(rest[0]);
        [[s[0]] + rest[0]] + rest[1..]
  }

  // ---- the pattern -------------------------------------------------------------------------

  lemma {:induction false} SplitOfJoined(words: seq<string>)
    requires words != [] && forall w <- words :: IsWord(w)
    ensures Split(Joined(words), '-') == words
  {
    assert '-' !in words[0] by { assert IsWord(words[0]); }
    if |words| == 1 {
      SplitOne(words[0], '-');
    } else {
      SplitOfJoined(words[1..]);
      SplitFirst(words[0], Joined(words[1..]), '-');
      assert words == [words[0]] + words[1..];
    }
  }

  lemma {:induction false} JoinedOfSplit(s: string)
    ensures Joined(Split(s, '-')) == s
  {
    if s != "" {
      JoinedOfSplit(s[1..]);
      var rest := Split(s[1..], '-');
      if s[0] != '-' {
        assert Split(s, '-') == [[s[0]] + rest[0]] + rest[1..];
        assert s == [s[0]] + s[1..];
      } else {
        assert Split(s, '-')[1..] == rest;
      }
    }
  }

  /** The matcher accepts exactly the language of the pattern. */
  lemma IsSlugExactly(s: string)
    ensures IsSlug(s) <==> MatchesSlugRe(s)
  {
    JoinedOfSplit(s);
    if words: seq<string> :| words != [] && (forall w <- words :: IsWord(w)) && s == Joined(words) {
      SplitOfJoined(words);
    }
  }

  // ---- what slugify computes ---------------------------------------------------------------

  predicate StartsBad(s: string) {
    s != "" && !Alnum(s[0])
  }

  predicate EndsBad(s: string) {
    s != "" && !Alnum(s[|s| - 1])
  }

  function HyphenIf(b: bool): string {
    if b then "-" else ""
  }

  predicate JoinsRuns(s: string) {
    Hyphenated(s) == if Runs(s) == [] then HyphenIf(s != "")
                     else HyphenIf(StartsBad(s)) + Joined(Runs(s)) + HyphenIf(EndsBad(s))
  }

  lemma JoinsOneRun(c: char)
    ensures JoinsRuns([c])
  {
    var s := [c];
    assert s[1..] == "" && Runs(s[1..]) == [] && Hyphenated(s[1..]) == "";
    if Alnum(c) {
      assert Runs(s) == [s] && Joined([s]) == s && Hyphenated(s) == s;
    }
  }

  lemma WordUnfolds(c: char, t: string)
    requires t != "" && Alnum(c) && Alnum(t[0])
    ensures Runs(t) != [] && Runs([c] + t) == [[c] + Runs(t)[0]] + Runs(t)[1..]
        && Hyphenated([c] + t) == [c] + Hyphenated(t)
  {
    var s := [c] + t;
    assert s[0] == c && s[1] == t[0] && s[1..] == t;
  }

  lemma JoinedOfLongerWord(c: char, words: seq<string>)
    requires words != []
    ensures Joined([[c] + words[0]] + words[1..]) == [c] + Joined(words)
  {
    var longer := [[c] + words[0]] + words[1..];
    assert longer[1..] == words[1..];
    if |words| > 1 {
      assert [c] + words[0] + "-" + Joined(words[1..]) == [c] + (words[0] + "-" + Joined(words[1..]));
    }
  }

  lemma WordGrows(c: char, t: string)
    requires t != "" && Alnum(c) && Alnum(t[0]) && JoinsRuns(t)
    ensures JoinsRuns([c] + t)
  {
    hide Runs, Joined, Hyphenated;
    var s := [c] + t;
    assert s[0] == c && s[|s| - 1] == t[|t| - 1];
    WordUnfolds(c, t);
    JoinedOfLongerWord(c, Runs(t));
    var joined, after := Joined(Runs(t)), HyphenIf(EndsBad(t));
    assert "" + joined + after == joined + after;
    assert "" + ([c] + joined) + after == [c] + (joined + after);
  }

  lemma GapUnfolds(c: char, t: string)
    requires t != "" && Alnum(c) && !Alnum(t[0])
    ensures Runs([c] + t) == [[c]] + Runs(t) && Hyphenated([c] + t) == [c] + Hyphenated(t)
  {
    var s := [c] + t;
    assert s[0] == c && s[1] == t[0] && s[1..] == t;
  }

  lemma JoinedOfOneMore(w: string, words: seq<string>)
    ensures Joined([w] + words) == if words == [] then w else w + "-" + Joined(words)
  {
    assert ([w] + words)[1..] == words;
  }

  lemma WordBeforeGap(c: char, t: string)
    requires t != "" && Alnum(c) && !Alnum(t[0]) && JoinsRuns(t)
    ensures JoinsRuns([c] + t)
  {
    hide Runs, Joined, Hyphenated;
    var s := [c] + t;
    assert s[0] == c && s[|s| - 1] == t[|t| - 1];
    GapUnfolds(c, t);
    JoinedOfOneMore([c], Runs(t));
    if Runs(t) == [] {
      RunsExistExactly(t);
      assert t[|t| - 1] in t;
    } else {
      assert [c] + ("-" + Joined(Runs(t)) + HyphenIf(EndsBad(t))) == [c] + "-" + Joined(Runs(t)) + HyphenIf(EndsBad(t));
    }
  }

  lemma GapGrows(c: char, t: string)
    requires t != "" && !Alnum(c) && JoinsRuns(t)
    ensures JoinsRuns([c] + t)
  {
    hide Runs, Joined, Hyphenated;
    var s := [c] + t;
    assert s[0] == c && s[|s| - 1] == t[|t| - 1];
    GapLengthens(c, t);
    if Runs(t) != [] && Alnum(t[0]) {
      var joined, after := Joined(Runs(t)), HyphenIf(EndsBad(t));
      assert "-" + ("" + joined + after) == "-" + joined + after;
    } else {
      assert "" + Hyphenated(t) == Hyphenated(t);
    }
  }

  lemma GapLengthens(c: char, t: string)
    requires t != "" && !Alnum(c)
    ensures Runs([c] + t) == Runs(t) && (Alnum(t[0]) ==> Runs(t) != [])
    ensures Hyphenated([c] + t) == HyphenIf(Alnum(t[0])) + Hyphenated(t)
  {
    var s := [c] + t;
    assert s[0] == c && s[1] == t[0] && s[1..] == t;
  }

  lemma {:induction false} HyphenatedIsJoined(s: string)
    ensures JoinsRuns(s)
  {
    if |s| > 1 {
      hide JoinsRuns;
      var c, t := s[0], s[1..];
      assert s == [c] + t;
      HyphenatedIsJoined(t);
      if !Alnum(c) {
        GapGrows(c, t);
      } else if Alnum(t[0]) {
        WordGrows(c, t);
      } else {
        WordBeforeGap(c, t);
      }
    } else if |s| == 1 {
      assert s == [s[0]];
      JoinsOneRun(s[0]);
    }
  }

  lemma {:induction false} JoinedEndsInWord(words: seq<string>)
    requires words != [] && forall w <- words :: IsWord(w)
    ensures var s := Joined(words); s != "" && Alnum(s[0]) && Alnum(s[|s| - 1])
  {
    assert IsWord(words[0]);
    if |words| > 1 {
      JoinedEndsInWord(words[1..]);
    }
  }

  lemma TrimHyphensBefore(s: string, before: bool)
    requires s != "" && Alnum(s[0])
    ensures TrimHyphensLeft(HyphenIf(before) + s) == s
  {
    if before {
      assert ("-" + s)[1..] == s && ("-" + s)[0] == '-';
    } else {
      assert "" + s == s;
    }
  }

  lemma TrimHyphensAfter(s: string, after: bool)
    requires s != "" && Alnum(s[|s| - 1])
    ensures TrimHyphensRight(s + HyphenIf(after)) == s
  {
    if after {
      var t := s + "-";
      assert t[..|t| - 1] == s && t[|t| - 1] == '-';
    } else {
      assert s + "" == s;
    }
  }

  lemma TrimHyphensOff(s: string, before: bool, after: bool)
    requires s != "" && Alnum(s[0]) && Alnum(s[|s| - 1])
    ensures TrimHyphensRight(TrimHyphensLeft(HyphenIf(before) + s + HyphenIf(after))) == s
  {
    hide TrimHyphensLeft, TrimHyphensRight, HyphenIf;
    var right := s + HyphenIf(after);
    assert HyphenIf(before) + s + HyphenIf(after) == HyphenIf(before) + right;
    TrimHyphensBefore(right, before);
    TrimHyphensAfter(s, after);
  }

  lemma {:induction false} RunsDropLastBad(s: string)
    requires EndsBad(s)
    ensures Runs(s) == Runs(s[..|s| - 1])
  {
    if |s| > 1 {
      var t := s[1..];
      RunsDropLastBad(t);
      assert s[..|s| - 1][1..] == t[..|t| - 1];
    }
  }

  lemma {:induction false} RunsOfTrimRight(s: string)
    ensures Runs(Lower(TrimRight(s))) == Runs(Lower(s))
  {
    if s != "" && IsSpace(s[|s| - 1]) {
      RunsOfTrimRight(s[..|s| - 1]);
      RunsDropLastBad(Lower(s));
      assert Lower(s)[..|s| - 1] == Lower(s[..|s| - 1]);
    }
  }

  lemma {:induction false} RunsOfTrimLeft(s: string)
    ensures Runs(Lower(TrimLeft(s))) == Runs(Lower(s))
  {
    if s != "" && IsSpace(s[0]) {
      RunsOfTrimLeft(s[1..]);
      assert Lower(s)[1..] == Lower(s[1..]);
    }
  }

  /** The slug of a title is its maximal runs of letters and digits, lower-cased, joined by hyphens. */
  lemma SlugifyJoinsRuns(title: string)
    ensures Slugify(title) == Joined(Runs(Lower(title)))
  {
    RunsOfTrimLeft(title);
    RunsOfTrimRight(TrimLeft(title));
    var s := Lower(TrimSpace(title));
    HyphenatedIsJoined(s);
    if Runs(s) != [] {
      JoinedEndsInWord(Runs(s));
      TrimHyphensOff(Joined(Runs(s)), StartsBad(s), EndsBad(s));
    } else {
      assert "-"[1..] == "";
    }
  }

  /** Every title gives either no slug at all, when it holds no letter or digit, or one the pattern accepts. */
  lemma SlugifyLandsInThePattern(title: string)
    ensures if exists c <- Lower(title) :: Alnum(c) then MatchesSlugRe(Slugify(title)) else Slugify(title) == ""
  {
    SlugifyJoinsRuns(title);
    RunsExistExactly(Lower(title));
    if Runs(Lower(title)) != [] {
      assert MatchesSlugRe(Joined(Runs(Lower(title))));
    }
  }

  lemma {:induction false} RunsExistExactly(s: string)
    ensures Runs(s) != [] <==> exists c <- s :: Alnum(c)
  {
    if s != "" {
      RunsExistExactly(s[1..]);
      assert s == [s[0]] + s[1..];
    }
  }

  lemma {:induction false} RunsOfJoined(words: seq<string>)
    requires forall w <- words :: IsWord(w)
    ensures Runs(Joined(words)) == words
    decreases Joined(words)
  {
    if words != [] {
      var w, rest := words[0], words[1..];
      assert IsWord(w) && words == [w] + rest;
      var s := Joined(words);
      assert s[0] == w[0] && Alnum(w[0]);
      if |w| > 1 {
        var shorter := [w[1..]] + rest;
        assert s[1..] == Joined(shorter) by { assert shorter[1..] == rest; }
        RunsOfJoined(shorter);
        assert s[1] == w[1] && Alnum(w[1]);
        assert [w[0]] + w[1..] == w;
      } else if rest != [] {
        assert s[1..] == "-" + Joined(rest) && s[1..][1..] == Joined(rest);
        RunsOfJoined(rest);
        assert w == [w[0]] && Runs(s) == [[s[0]]] + Runs(s[1..]);
      } else {
        assert w == [w[0]] && words == [w];
      }
    }
  }

  lemma {:induction false} LowerOfJoined(words: seq<string>)
    requires forall w <- words :: IsWord(w)
    ensures Lower(Joined(words)) == Joined(words)
  {
    var s := Joined(words);
    JoinedCharacters(words);
    assert forall c <- s :: LowerChar(c) == c;
  }

  lemma {:induction false} JoinedCharacters(words: seq<string>)
    requires forall w <- words :: IsWord(w)
    ensures forall c <- Joined(words) :: Alnum(c) || c == '-'
  {
    if words != [] {
      assert IsWord(words[0]);
      JoinedCharacters(words[1..]);
    }
  }

  /** The fixed points of slugify are exactly the strings the pattern accepts and the empty one. */
  lemma SlugsAreTheFixedPoints(s: string)
    ensures Slugify(s) == s <==> MatchesSlugRe(s) || s == ""
  {
    SlugifyLandsInThePattern(s);
    if words: seq<string> :| words != [] && (forall w <- words :: IsWord(w)) && s == Joined(words) {
      LowerOfJoined(words);
      RunsOfJoined(words);
      SlugifyJoinsRuns(s);
    }
  }

  lemma SlugifyIsIdempotent(title: string)
    ensures Slugify(Slugify(title)) == Slugify(title)
  {
    SlugifyLandsInThePattern(title);
    SlugsAreTheFixedPoints(Slugify(title));
  }

  // ---- slugs in plain words ----------------------------------------------------------------

  /** The pattern character by character: letters a to z, digits and single hyphens, none at an end. */
  predicate SpelledOut(s: string) {
    && s != "" && s[0] != '-' && s[|s| - 1] != '-'
    && (forall i | 0 <= i < |s| :: 'a' <= s[i] <= 'z' || '0' <= s[i] <= '9' || s[i] == '-')
    && (forall i | 0 < i < |s| :: s[i] != '-' || s[i - 1] != '-')
  }

  lemma SplitsSpelledOut(p: string, rest: string)
    requires '-' !in p && SpelledOut(p + ['-'] + rest)
    ensures IsWord(p) && SpelledOut(rest)
  {
    var s := p + ['-'] + rest;
    assert s[|p|] == '-' && (p != "" ==> s[0] == p[0]);
    assert rest != "" && s[|p| + 1] == rest[0] && s[|s| - 1] == rest[|rest| - 1];
    forall c <- p
      ensures Alnum(c)
    {
      var i :| 0 <= i < |p| && p[i] == c;
      assert s[i] == c;
    }
    forall i | 0 <= i < |rest|
      ensures 'a' <= rest[i] <= 'z' || '0' <= rest[i] <= '9' || rest[i] == '-'
      ensures i > 0 ==> rest[i] != '-' || rest[i - 1] != '-'
    {
      assert s[|p| + 1 + i] == rest[i] && s[|p| + i] == if i > 0 then rest[i - 1] else '-';
    }
  }

  lemma JoinsSpelledOut(p: string, rest: string)
    requires IsWord(p) && SpelledOut(rest)
    ensures SpelledOut(p + ['-'] + rest)
  {
    var s := p + ['-'] + rest;
    assert Alnum(p[0]) && s[0] == p[0] && s[|s| - 1] == rest[|rest| - 1];
    forall i | 0 <= i < |s|
      ensures 'a' <= s[i] <= 'z' || '0' <= s[i] <= '9' || s[i] == '-'
      ensures i > 0 ==> s[i] != '-' || s[i - 1] != '-'
    {
      if i < |p| {
        assert s[i] == p[i] && Alnum(p[i]);
      } else if i == |p| {
        assert s[i - 1] == p[i - 1] && Alnum(p[i - 1]);
      } else {
        assert s[i] == rest[i - |p| - 1] && s[i - 1] == if i == |p| + 1 then '-' else rest[i - |p| - 2];
      }
    }
  }

  lemma SpelledOutWord(p: string)
    requires '-' !in p
    ensures SpelledOut(p) <==> IsWord(p)
  {
    if IsWord(p) {
      assert forall i | 0 <= i < |p| :: p[i] in p;
      assert forall i | 0 <= i < |p| :: Alnum(p[i]);
    }
    if SpelledOut(p) {
      forall c <- p
        ensures Alnum(c)
      {
        var i :| 0 <= i < |p| && p[i] == c;
      }
    }
  }

  lemma {:induction false} SlugsAreSpelledOut(s: string)
    ensures IsSlug(s) <==> SpelledOut(s)
    decreases |s|
  {
    hide Split, SpelledOut, IsWord;
    SplitAtFirst(s, '-');
    var parts := Split(s, '-');
    var p := parts[0];
    if |parts| == 1 {
      SpelledOutWord(s);
      assert parts == [s];
    } else {
      var rest := s[|p| + 1..];
      SlugsAreSpelledOut(rest);
      assert parts == [p] + Split(rest, '-');
      assert IsSlug(s) <==> IsWord(p) && IsSlug(rest);
      if SpelledOut(s) {
        SplitsSpelledOut(p, rest);
      } else if IsWord(p) && SpelledOut(rest) {
        JoinsSpelledOut(p, rest);
      }
    }
  }

  predicate Slugworthy(c: char) {
    'a' <= c <= 'z' || 'A' <= c <= 'Z' || '0' <= c <= '9' || c as int == 0x130 || c as int == 0x212A
  }

  lemma AlnumInLower(title: string)
    ensures (exists c <- Lower(title) :: Alnum(c)) <==> exists c <- title :: Slugworthy(c)
  {
    var low := Lower(title);
    if c :| c in low && Alnum(c) {
      var i :| 0 <= i < |low| && low[i] == c;
      assert Slugworthy(title[i]) && title[i] in title;
    }
    if c :| c in title && Slugworthy(c) {
      var i :| 0 <= i < |title| && title[i] == c;
      assert Alnum(low[i]) && low[i] in low;
    }
  }

  /** A title has a slug exactly when it holds an ASCII letter or digit, or one of the two other characters
      whose lower case is one; and every slug is spelled as the pattern demands. */
  lemma SlugifyInPlainWords(title: string)
    ensures Slugify(title) != "" <==> exists c <- title :: Slugworthy(c)
    ensures Slugify(title) != "" ==> SpelledOut(Slugify(title))
  {
    hide Slugify, SpelledOut, IsSlug, Lower, LowerChar;
    SlugifyLandsInThePattern(title);
    AlnumInLower(title);
    if MatchesSlugRe(Slugify(title)) {
      MatchIsNotEmpty(Slugify(title));
    }
    IsSlugExactly(Slugify(title));
    SlugsAreSpelledOut(Slugify(title));
  }

  lemma MatchIsNotEmpty(s: string)
    requires MatchesSlugRe(s)
    ensures s != ""
  {
    var words: seq<string> :| words != [] && (forall w <- words :: IsWord(w)) && s == Joined(words);
    JoinedEndsInWord(words);
  }

  /** Titles that differ only in the case of ASCII letters have one slug. */
  lemma SlugifyForgetsCase(title: string, other: string)
    requires SameUpToCase(title, other)
    ensures Slugify(title) == Slugify(other)
  {
    hide Slugify;
    SlugifyJoinsRuns(title);
    SlugifyJoinsRuns(other);
    LowerForgetsCase(title, other);
  }

  /** The slug of a word is the word in lower case, letter by letter. */
  lemma SlugOfWord(title: string)
    requires title != "" && forall c <- title :: 'a' <= c <= 'z' || 'A' <= c <= 'Z' || '0' <= c <= '9'
    ensures |Slugify(title)| == |title|
    ensures forall i | 0 <= i < |title| ::
              Slugify(title)[i] as int == if 'A' <= title[i] <= 'Z' then title[i] as int + 32 else title[i] as int
  {
    hide Slugify;
    var low := Lower(title);
    forall i | 0 <= i < |title|
      ensures Alnum(low[i])
      ensures low[i] as int == if 'A' <= title[i] <= 'Z' then title[i] as int + 32 else title[i] as int
    {
      assert title[i] in title;
    }
    assert IsWord(low) && Joined([low]) == low;
    SlugifyJoinsRuns(title);
    RunsOfJoined([low]);
  }

  /** Words with anything but letters and digits between them are joined by one hyphen. */
  lemma SlugOfTwoWords(w: string, gap: string, v: string)
    requires IsWord(w) && IsWord(v) && gap != "" && forall c <- gap :: !Alnum(LowerChar(c))
    ensures Slugify(w + gap + v) == w + "-" + v
  {
    hide Slugify;
    SlugifyJoinsRuns(w + gap + v);
    LowerOfJoined([w]);
    LowerOfJoined([v]);
    assert Lower(w + gap + v) == w + (Lower(gap) + v);
    RunsOfJoined([v]);
    RunsOfGap(Lower(gap), v);
    assert (Lower(gap) + v)[0] == LowerChar(gap[0]);
    RunsOfWordThenGap(w, Lower(gap) + v);
    assert [v][0] == v && Joined([w, v]) == w + "-" + v by { assert [w, v][1..] == [v]; }
  }

  lemma {:induction false} RunsOfGap(gap: string, s: string)
    requires forall c <- gap :: !Alnum(c)
    ensures Runs(gap + s) == Runs(s)
  {
    if gap == "" {
      assert gap + s == s;
    } else {
      assert (gap + s)[1..] == gap[1..] + s;
      RunsOfGap(gap[1..], s);
    }
  }

  lemma {:induction false} RunsOfWordThenGap(w: string, s: string)
    requires IsWord(w) && s != "" && !Alnum(s[0])
    ensures Runs(w + s) == [w] + Runs(s)
  {
    var t := w + s;
    assert Alnum(w[0]) && t[0] == w[0];
    if |w| == 1 {
      assert t[1..] == s && w == [w[0]];
    } else {
      assert t[1..] == w[1..] + s && Alnum(w[1]) && t[1] == w[1];
      RunsOfWordThenGap(w[1..], s);
      assert [w[0]] + w[1..] == w;
    }
  }
}
