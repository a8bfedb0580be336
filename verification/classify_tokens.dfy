/** The word-bounded extractors of the classifier described through the
    tokens of the class name (its maximal runs of ASCII letters, digits and
    underscores), independently of the positional scanners. */
module ClassifyTokens {
  import opened Base
  import opened Chars
  import opened Regex
  import opened TokenView
  import opened Classify

  // ---------------------------------------------------------------------
  // The patterns are made of lower-case words
  // ---------------------------------------------------------------------

  /** Lower-case ASCII letters and digits, checked one at a time so that
      literals evaluate. */
  predicate LowerWordRec(s: string) {
    s == [] || ((IsAsciiLower(s[0]) || IsDigit(s[0])) && LowerWordRec(s[1..]))
  }

  lemma {:induction false} LowerWordFixed(s: string)
    requires LowerWordRec(s)
    ensures AllWordChars(s) && Fold(s) == s
  {
    if s != [] {
      LowerWordFixed(s[1..]);
      assert forall k :: 1 <= k < |s| ==> s[k] == s[1..][k - 1];
      assert s == [s[0]] + s[1..];
    }
  }

  /** Every word of the list is a non-empty lower-case word. */
  predicate LowerWordsRec(ws: seq<string>) {
    ws == [] || (|ws[0]| > 0 && LowerWordRec(ws[0]) && LowerWordsRec(ws[1..]))
  }

  lemma {:induction false} LowerWordsLike(ws: seq<string>)
    requires LowerWordsRec(ws)
    ensures WordLike(ws)
  {
    if ws != [] {
      LowerWordFixed(ws[0]);
      LowerWordsLike(ws[1..]);
      assert forall i :: 1 <= i < |ws| ==> ws[i] == ws[1..][i - 1];
    }
  }

  lemma GenderWordLike(g: Gender)
    ensures WordLike(GenderPattern(g).alts)
  {
    if g == Damer {
      DamerWordLike();
    } else {
      OtherGenderWordLike(g);
    }
  }

  lemma DamerWordLike()
    ensures WordLike(GenderPattern(Damer).alts)
  {
    DameWordsLike();
    KvindeWordsLike();
    WordLikeAppend(DameWords, KvindeWords);
  }

  lemma DameWordsLike()
    ensures WordLike(DameWords)
  {
    LowerWordsLike(DameWords);
  }

  lemma KvindeWordsLike()
    ensures WordLike(KvindeWords)
  {
    LowerWordsLike(KvindeWords);
  }

  lemma WordLikeAppend(a: seq<string>, b: seq<string>)
    requires WordLike(a) && WordLike(b)
    ensures WordLike(a + b)
  {
    assert forall i :: |a| <= i < |a + b| ==> (a + b)[i] == b[i - |a|];
  }

  lemma OtherGenderWordLike(g: Gender)
    requires g != Damer
    ensures WordLike(GenderPattern(g).alts)
  {
    LowerWordsLike(GenderPattern(g).alts);
  }

  lemma YouthWordLike()
    ensures WordLike(YouthPattern.alts)
  {
    LowerWordsLike(YouthPattern.alts);
  }

  lemma ConcatWordLike()
    ensures WordLike(ConcatPattern.alts)
  {
    LowerWordsLike(ConcatPattern.alts);
  }

  lemma StandaloneWordLike()
    ensures WordLike(StandalonePattern.alts)
  {
    SmallLevelsLike();
    LargeLevelsLike();
    WordLikeAppend(Levels[..5], Levels[5..]);
    assert Levels == Levels[..5] + Levels[5..];
  }

  lemma SmallLevelsLike()
    ensures WordLike(Levels[..5])
  {
    assert Levels[..5] == ["10", "25", "35", "50", "60"];
    LowerWordsLike(["10", "25", "35", "50", "60"]);
  }

  lemma LargeLevelsLike()
    ensures WordLike(Levels[5..])
  {
    assert Levels[5..] == ["100", "200", "500", "1000", "2000"];
    LowerWordsLike(["100", "200", "500", "1000", "2000"]);
  }

  // ---------------------------------------------------------------------
  // Gender
  // ---------------------------------------------------------------------

  /** Some token of `ts`, in any case, is one of `words`. */
  predicate Names(ts: seq<string>, words: seq<string>) {
    exists i :: 0 <= i < |ts| && Fold(ts[i]) in words
  }

  /** A gender pattern matches somewhere exactly when a token names it. */
  lemma GenderMatchIffNamed(name: string, g: Gender)
    ensures FirstWord(GenderPattern(g), false, name).Some? <==> Names(Tokens(name), GenderPattern(g).alts)
  {
    var p := GenderPattern(g);
    var ts := Tokens(name);
    GenderWordLike(g);
    FirstWordIsFirstToken(p, name);
    FirstTokenAtIndex(p, ts);
    forall i | 0 <= i < |ts| ensures TokenHit(p, ts[i]).Some? <==> Fold(ts[i]) in p.alts {
      WholeTokenHit(p, ts[i]);
    }
  }

  /** `ExtractGender` names the earliest gender, in the order Herrer, Damer,
      Mix, Drenge, Piger, that some token of the name names. */
  lemma ExtractGenderByTokens(name: string, g: Gender)
    ensures ExtractGender(name) == Some(g) <==>
      Names(Tokens(name), GenderPattern(g).alts) &&
      forall h :: Rank(h) < Rank(g) ==> !Names(Tokens(name), GenderPattern(h).alts)
  {
    forall h ensures FirstWord(GenderPattern(h), false, name).Some? <==> Names(Tokens(name), GenderPattern(h).alts) {
      GenderMatchIffNamed(name, h);
    }
    var r := ExtractGender(name);
    if Names(Tokens(name), GenderPattern(g).alts) && forall h :: Rank(h) < Rank(g) ==> !Names(Tokens(name), GenderPattern(h).alts) {
      assert r.Some?;
      assert Rank(r.value) == Rank(g);
      assert GenderOrder[Rank(g)] == g;
    }
  }

  lemma ExtractGenderNoneByTokens(name: string)
    ensures ExtractGender(name).None? <==> forall h :: !Names(Tokens(name), GenderPattern(h).alts)
  {
    forall h ensures FirstWord(GenderPattern(h), false, name).Some? <==> Names(Tokens(name), GenderPattern(h).alts) {
      GenderMatchIffNamed(name, h);
    }
  }

  // ---------------------------------------------------------------------
  // Youth age
  // ---------------------------------------------------------------------

  /** The position of the first token that is, in any case, one of `words`. */
  function FirstNamed(ts: seq<string>, words: seq<string>): (r: nat)
    ensures r <= |ts|
    ensures forall j :: 0 <= j < r ==> Fold(ts[j]) !in words
    ensures r < |ts| ==> Fold(ts[r]) in words
  {
    if ts == [] then 0
    else if Fold(ts[0]) in words then 0
    else
      var r := FirstNamed(ts[1..], words);
      assert forall j :: 1 <= j < |ts| ==> ts[j] == ts[1..][j - 1];
      1 + r
  }

  lemma {:induction false} FirstIndexWhole(p: WordPattern, ts: seq<string>)
    requires p.shape == Whole
    ensures FirstIndex(p, ts) == FirstNamed(ts, p.alts)
  {
    if ts != [] {
      WholeTokenHit(p, ts[0]);
      FirstIndexWhole(p, ts[1..]);
    }
  }

  /** `ExtractYouthAge` reads the age off the first token that is `U12`,
      `U14`, `U16` or `U18` in any case. */
  lemma ExtractYouthByTokens(name: string)
    ensures var ts := Tokens(name); var i := FirstNamed(ts, YouthPattern.alts);
      ExtractYouthAge(name) == if i < |ts| then YouthOfWord(Fold(ts[i])) else None
  {
    var ts := Tokens(name);
    YouthWordLike();
    FirstWordIsFirstToken(YouthPattern, name);
    FirstTokenAtIndex(YouthPattern, ts);
    FirstIndexWhole(YouthPattern, ts);
    var i := FirstIndex(YouthPattern, ts);
    if i < |ts| {
      WholeTokenHit(YouthPattern, ts[i]);
    }
  }

  /** Each youth age is named by the upper- and lower-case spellings of its label. */
  lemma YouthOfLabel(y: Youth)
    ensures Fold(YouthLabel(y)) in YouthPattern.alts
    ensures YouthOfWord(Fold(YouthLabel(y))) == Some(y)
  {
    match y
    case U12 => assert Fold("U12") == "u12";
    case U14 => assert Fold("U14") == "u14";
    case U16 => assert Fold("U16") == "u16";
    case U18 => assert Fold("U18") == "u18";
  }

  // ---------------------------------------------------------------------
  // Standalone levels
  // ---------------------------------------------------------------------

  /** The tokens that are level numbers, in order. */
  function LevelWords(ts: seq<string>): (r: seq<string>)
    ensures forall i :: 0 <= i < |r| ==> IsLevel(r[i]) && r[i] in ts
    ensures |r| <= |ts|
  {
    if ts == [] then []
    else
      var rest := LevelWords(ts[1..]);
      (if IsLevel(ts[0]) then [ts[0]] else []) + rest
  }

  /** Folding leaves a string alone exactly when it has no upper-case letter;
      in particular a string folds to digits only when it is those digits. */
  lemma FoldToDigits(t: string, w: string)
    requires AllDigits(w) && Fold(t) == w
    ensures t == w
  {
    forall k | 0 <= k < |t| ensures t[k] == w[k] {
      FoldAt(t, k);
      assert IsDigit(Lower(t[k]));
    }
  }

  lemma LevelsAreDigits(w: string)
    requires IsLevel(w)
    ensures AllDigits(w) && Fold(w) == w
  {
    forall k | 0 <= k < |w| ensures IsDigit(w[k]) {
      assert w in Levels;
    }
    FoldOfDigits(w);
  }

  lemma {:induction false} FoldOfDigits(w: string)
    requires AllDigits(w)
    ensures Fold(w) == w
  {
    if w != [] {
      assert AllDigits(w[1..]) by {
        forall k | 0 <= k < |w[1..]| ensures IsDigit(w[1..][k]) { assert w[1..][k] == w[k + 1]; }
      }
      FoldOfDigits(w[1..]);
      assert w == [w[0]] + w[1..];
    }
  }

  /** A token is a standalone match exactly when it is a level number. */
  lemma StandaloneTokenHit(t: string)
    ensures TokenHit(StandalonePattern, t).Some? <==> IsLevel(t)
    ensures TokenHit(StandalonePattern, t).Some? ==> TokenHit(StandalonePattern, t).value.word == t
  {
    WholeTokenHit(StandalonePattern, t);
    if Fold(t) in Levels {
      LevelsAreDigits(Fold(t));
      FoldToDigits(t, Fold(t));
    }
    if IsLevel(t) {
      LevelsAreDigits(t);
    }
  }

  lemma {:induction false} StandaloneTokens(ts: seq<string>)
    ensures HitWords(AllTokens(StandalonePattern, ts)) == LevelWords(ts)
  {
    if ts != [] {
      StandaloneTokenHit(ts[0]);
      StandaloneTokens(ts[1..]);
      var h := TokenHit(StandalonePattern, ts[0]);
      var hs := (if h.Some? then [h.value] else []) + AllTokens(StandalonePattern, ts[1..]);
      assert HitWords(hs) == (if h.Some? then [h.value.word] else []) + HitWords(AllTokens(StandalonePattern, ts[1..]));
    }
  }

  /** Standalone extraction yields a level exactly when no DPF tag gave a
      recognised level and exactly one token of the name is a level number;
      that level is then the result. */
  lemma ExtractStandaloneByTokens(name: string)
    ensures var lw := LevelWords(Tokens(name));
      ExtractStandaloneLevels(name) ==
        if ExtractDpfLevels(name) == [] && |lw| == 1 then ["DPF" + lw[0]] else []
  {
    StandaloneWordLike();
    AllWordsAreAllTokens(StandalonePattern, name);
    StandaloneTokens(Tokens(name));
  }

  // ---------------------------------------------------------------------
  // Concatenated gender and level
  // ---------------------------------------------------------------------

  /** Only the first token of the form gender word + digits is examined. */
  lemma ExtractConcatenatedByTokens(name: string)
    ensures ExtractConcatenated(name) == ConcatOfHit(FirstToken(ConcatPattern, Tokens(name)))
  {
    ConcatWordLike();
    FirstWordIsFirstToken(ConcatPattern, name);
  }

  /** A token matches the concatenated pattern with word `w` and number `d`
      exactly when it is `w`, in any case, directly followed by the digits `d`. */
  lemma ConcatTokenShape(t: string, w: string)
    requires w in ConcatPattern.alts
    ensures AltToken(ConcatPattern, t, w).Some? <==>
      exists d :: |d| > 0 && AllDigits(d) && Fold(t) == w + d
  {
    if AltToken(ConcatPattern, t, w).Some? {
      ConcatTokenDigits(t, w);
    }
    if exists d :: |d| > 0 && AllDigits(d) && Fold(t) == w + d {
      var d :| |d| > 0 && AllDigits(d) && Fold(t) == w + d;
      ConcatTokenOfDigits(t, w, d);
    }
  }

  lemma ConcatTokenDigits(t: string, w: string)
    requires AltToken(ConcatPattern, t, w).Some?
    ensures |w| < |t| && AllDigits(t[|w|..]) && Fold(t) == w + t[|w|..]
  {
    assert FoldPrefix(t, w) && |w| < |t| && AllDigits(t[|w|..]);
    FoldDigitsSuffix(t, w);
  }

  /** A string that folds to `w` on its prefix and has digits after it folds
      to `w` followed by those digits. */
  lemma FoldDigitsSuffix(t: string, w: string)
    requires FoldPrefix(t, w) && AllDigits(t[|w|..])
    ensures Fold(t) == w + t[|w|..]
  {
    var a := t[..|w|];
    var d := t[|w|..];
    FoldOfDigits(d);
    FoldAppend(a, d);
    assert t == a + d;
  }

  lemma ConcatTokenOfDigits(t: string, w: string, d: string)
    requires |d| > 0 && AllDigits(d) && Fold(t) == w + d
    ensures AltToken(ConcatPattern, t, w).Some?
  {
    assert Fold(t)[..|w|] == w;
    FoldSlice(t, |w|);
    assert FoldPrefix(t, w);
    assert AllDigits(t[|w|..]) by {
      forall k | 0 <= k < |t| - |w| ensures IsDigit(t[|w|..][k]) {
        FoldAt(t, |w| + k);
        assert Lower(t[|w| + k]) == d[k];
      }
    }
  }

  lemma {:induction false} FoldAppend(a: string, b: string)
    ensures Fold(a + b) == Fold(a) + Fold(b)
  {
    var l := Fold(a + b);
    var r := Fold(a) + Fold(b);
    assert |l| == |r|;
    forall k | 0 <= k < |l| ensures l[k] == r[k] {
      FoldAt(a + b, k);
      if k < |a| {
        assert (a + b)[k] == a[k];
        FoldAt(a, k);
      } else {
        assert (a + b)[k] == b[k - |a|];
        FoldAt(b, k - |a|);
      }
    }
  }

  lemma FoldSlice(t: string, n: nat)
    requires n <= |t|
    ensures Fold(t[..n]) == Fold(t)[..n]
  {
    var l := Fold(t[..n]);
    var r := Fold(t)[..n];
    assert |l| == |r|;
    forall k | 0 <= k < n ensures l[k] == r[k] {
      assert t[..n][k] == t[k];
      FoldAt(t[..n], k);
      FoldAt(t, k);
    }
  }
}
