/** The names the classifier gives its series are normal forms: classifying
    the name of an emitted series — "Herrer DPF50", "Damer U14 DPF100",
    "Piger U12" — gives back exactly that one series. */
module ClassifyIdem {
  import opened Base
  import opened Chars
  import opened Regex
  import opened TokenView
  import opened Classify
  import opened ClassifyTokens
  import opened ClassifyScan

  // ---------------------------------------------------------------------
  // The words of a series name
  // ---------------------------------------------------------------------

  /** A word that the DPF scan passes over. */
  predicate PlainWord(w: string) {
    |w| >= 3 && AllWordChars(w) && !FoldPrefix(w, "dpf")
  }

  /** A token, case folded, that names no gender. */
  predicate NoGenderWord(t: string) {
    forall h: Gender :: Fold(t) !in GenderPattern(h).alts
  }

  /** No character of `s` is a `v` or a `w` in either case. */
  predicate NoVW(s: string) {
    'v' !in s && 'V' !in s && 'w' !in s && 'W' !in s
  }

  lemma NoVWAvoids(s: string)
    requires NoVW(s)
    ensures Avoids(s, 'v') && Avoids(s, 'w')
  {
    forall k | 0 <= k < |s| ensures Lower(s[k]) != 'v' && Lower(s[k]) != 'w' {
      assert s[k] in s;
    }
  }

  /** A level is a non-empty run of digits. */
  lemma LevelShape(n: string)
    requires IsLevel(n)
    ensures |n| > 0 && AllDigits(n)
  {
    LevelsAreDigits(n);
    assert n in Levels;
  }

  /** A level is not a word that starts with a letter. */
  lemma NotLevel(w: string)
    requires |w| > 0 && !IsDigit(w[0])
    ensures !IsLevel(w)
  {
    if IsLevel(w) {
      LevelShape(w);
    }
  }

  /** No alternative of the concatenated pattern matches a token that
      starts with `u` or does not end with a digit. */
  lemma ConcatTokenNone(t: string)
    requires |t| > 0 && (Lower(t[0]) == 'u' || !IsDigit(t[|t| - 1]))
    ensures TokenHit(ConcatPattern, t).None?
  {
    var alts := ConcatPattern.alts;
    forall i | 0 <= i < |alts| ensures AltToken(ConcatPattern, t, alts[i]).None? {
      ConcatAltNone(t, alts[i]);
    }
    AltsTokenNone(ConcatPattern, t, alts);
  }

  lemma ConcatAltNone(t: string, w: string)
    requires w in ConcatPattern.alts
    requires |t| > 0 && (Lower(t[0]) == 'u' || !IsDigit(t[|t| - 1]))
    ensures AltToken(ConcatPattern, t, w).None?
  {
    if AltToken(ConcatPattern, t, w).Some? {
      ConcatTokenDigits(t, w);
      ConcatAltInitial(w);
      ConcatTokenEnds(t, w, t[|w|..]);
      assert false;
    }
  }

  /** No alternative of the concatenated pattern starts with `u`. */
  lemma ConcatAltInitial(w: string)
    requires w in ConcatPattern.alts
    ensures |w| > 0 && w[0] != 'u'
  {
  }

  /** A token that folds to a word followed by digits starts with the
      word's first letter, up to case, and ends with a digit. */
  lemma ConcatTokenEnds(t: string, w: string, d: string)
    requires |w| > 0 && |d| > 0 && AllDigits(d) && Fold(t) == w + d
    ensures |t| > 0 && Lower(t[0]) == w[0] && IsDigit(t[|t| - 1])
  {
    FoldAt(t, 0);
    FoldAt(t, |t| - 1);
    assert Fold(t)[0] == w[0];
    assert Fold(t)[|t| - 1] == d[|d| - 1];
  }

  /** No alternative matches, so the pattern does not match the token. */
  lemma {:induction false} AltsTokenNone(p: WordPattern, t: string, alts: seq<string>)
    requires forall i :: 0 <= i < |alts| ==> AltToken(p, t, alts[i]).None?
    ensures AltsToken(p, t, alts).None?
  {
    if alts != [] {
      assert forall i :: 0 <= i < |alts| - 1 ==> alts[1..][i] == alts[i + 1];
      AltsTokenNone(p, t, alts[1..]);
    }
  }

  // ---------------------------------------------------------------------
  // Gender labels
  // ---------------------------------------------------------------------

  /** The label, case folded. */
  function LowerLabel(g: Gender): string {
    match g
    case Herrer => "herrer"
    case Damer => "damer"
    case Mix => "mix"
    case Drenge => "drenge"
    case Piger => "piger"
  }

  lemma FoldLabel(g: Gender)
    ensures Fold(Label(g)) == LowerLabel(g)
  {
    FoldAll(Label(g));
  }

  /** The label folds to one of its own gender's words, and to none of the
      words of a gender tried before it. */
  lemma LabelNames(g: Gender)
    ensures Fold(Label(g)) in GenderPattern(g).alts
    ensures forall h :: Rank(h) < Rank(g) ==> Fold(Label(g)) !in GenderPattern(h).alts
    ensures Fold(Label(g)) !in YouthPattern.alts
  {
    FoldLabel(g);
    LowerLabelOwn(g);
    forall h | Rank(h) < Rank(g) ensures LowerLabel(g) !in GenderPattern(h).alts {
      LowerLabelOther(g, h);
    }
    assert LowerLabel(g)[0] != 'u';
  }

  lemma LowerLabelOwn(g: Gender)
    ensures LowerLabel(g) in GenderPattern(g).alts
  {
    if g == Damer {
      assert DameWords[0] == "damer";
    }
  }

  lemma LowerLabelOther(g: Gender, h: Gender)
    requires Rank(h) < Rank(g)
    ensures LowerLabel(g) !in GenderPattern(h).alts
  {
    var x := LowerLabel(g);
    assert x[0] != 'k' && x[0] != 'h';
    if h == Damer {
      assert x[0] != 'd' || x[1] != 'a';
    }
  }

  lemma LabelWord(g: Gender)
    ensures PlainWord(Label(g)) && NoVW(Label(g)) && '(' !in Label(g)
    ensures !IsLevel(Label(g)) && TokenHit(ConcatPattern, Label(g)).None?
  {
    var w := Label(g);
    LabelChars(g);
    FoldAt(w[..3], 1);
    NotLevel(w);
    ConcatTokenNone(w);
  }

  lemma LabelChars(g: Gender)
    ensures |Label(g)| >= 3 && AllWordChars(Label(g)) && NoVW(Label(g)) && '(' !in Label(g)
    ensures !IsDigit(Label(g)[0]) && !IsDigit(Label(g)[|Label(g)| - 1]) && Label(g)[1] != 'p' && Label(g)[1] != 'P'
  {
    var w := Label(g);
    forall k | 0 <= k < |w| ensures IsWordChar(w[k]) {
      assert w[k] in w;
    }
  }

  // ---------------------------------------------------------------------
  // Youth labels
  // ---------------------------------------------------------------------

  lemma YouthWord(y: Youth)
    ensures PlainWord(YouthLabel(y)) && NoVW(YouthLabel(y)) && '(' !in YouthLabel(y)
    ensures !IsLevel(YouthLabel(y)) && TokenHit(ConcatPattern, YouthLabel(y)).None?
    ensures NoGenderWord(YouthLabel(y))
  {
    var w := YouthLabel(y);
    assert |w| == 3 && w[0] == 'U' && IsDigit(w[1]) && IsDigit(w[2]);
    assert AllWordChars(w);
    FoldYouth(w[1], w[2]);
    assert w == ['U', w[1], w[2]];
    assert Fold(w[..3])[0] == 'u';
    NotLevel(w);
    ConcatTokenNone(w);
    forall h: Gender ensures Fold(w) !in GenderPattern(h).alts {
      assert Fold(w)[0] == 'u';
    }
  }

  // ---------------------------------------------------------------------
  // Rankings
  // ---------------------------------------------------------------------

  /** A ranking is "DPF" and its level. */
  lemma RankingParts(l: string)
    requires IsRanking(l)
    ensures l == "DPF" + l[3..] && |l[3..]| > 0 && AllDigits(l[3..])
    ensures AllWordChars(l) && NoVW(l)
  {
    var n := l[3..];
    LevelShape(n);
    assert l == l[..3] + n;
    forall k | 0 <= k < |l| ensures IsWordChar(l[k]) && l[k] !in "vVwW" {
      if k >= 3 {
        assert l[k] == n[k - 3];
      } else {
        assert l[k] == "DPF"[k];
      }
    }
  }

  lemma RankingWord(l: string)
    requires IsRanking(l)
    ensures NoGenderWord(l) && Fold(l) !in YouthPattern.alts
  {
    assert l[..3] == "DPF";
    FoldAt(l, 0);
    FoldAt(l, 1);
    assert l[0] == 'D' && l[1] == 'P';
    assert Fold(l)[0] == 'd' && Fold(l)[1] == 'p';
    forall h: Gender ensures Fold(l) !in GenderPattern(h).alts {
    }
  }

  /** The DPF scan of a ranking alone reads its level back. */
  lemma RankingScan(l: string)
    requires IsRanking(l)
    ensures TagListScan(false, l, "dpf", DpfSeps) == [l[3..]]
    ensures Rankings([l[3..]]) == [l]
  {
    var n := l[3..];
    RankingParts(l);
    assert Fold("DPF") == "dpf";
    assert Numbers([n]);
    DpfListAlone("DPF", "", [n], '/');
    assert "DPF" + "" + JoinWith([n], '/') == l;
    assert Rankings([n]) == ["DPF" + n] + Rankings([]);
  }

  // ---------------------------------------------------------------------
  // Scanning space-separated words
  // ---------------------------------------------------------------------

  /** A plain word and a space contribute nothing to the DPF scan. */
  lemma DpfSkipWord(w: string, r: string)
    requires PlainWord(w)
    ensures TagListScan(false, w + (" " + r), "dpf", DpfSeps) == TagListScan(false, r, "dpf", DpfSeps)
  {
    TagScanSkipWord(w, " " + r);
    assert " " + r == [' '] + r;
    TagScanAfterNonWord(' ', r);
  }

  /** A word followed by a space is a token of its own. */
  lemma TokensSkipWord(w: string, r: string)
    requires |w| > 0 && AllWordChars(w)
    ensures Tokens(w + (" " + r)) == [w] + Tokens(r)
  {
    TokensOfWordThen(w, ' ', r);
    assert w + [' '] + r == w + (" " + r);
  }

  // ---------------------------------------------------------------------
  // The three shapes of a series name
  // ---------------------------------------------------------------------

  /** The gender of a name whose first token is the label and whose other
      tokens name no gender. */
  lemma GenderOfLabelFirst(name: string, g: Gender, rest: seq<string>)
    requires Tokens(name) == [Label(g)] + rest
    requires forall i :: 0 <= i < |rest| ==> NoGenderWord(rest[i])
    ensures ExtractGender(name) == Some(g)
  {
    var ts := Tokens(name);
    LabelNames(g);
    assert ts[0] == Label(g);
    assert Names(ts, GenderPattern(g).alts);
    forall h | Rank(h) < Rank(g) ensures !Names(ts, GenderPattern(h).alts) {
      forall i | 0 <= i < |ts| ensures Fold(ts[i]) !in GenderPattern(h).alts {
        if i > 0 {
          assert ts[i] == rest[i - 1];
        }
      }
    }
    ExtractGenderByTokens(name, g);
  }

  /** A name made of a label, a space and a ranking. */
  lemma RankedName(g: Gender, l: string, name: string)
    requires IsRanking(l) && name == Label(g) + " " + l
    ensures !IsWaitingList(name)
    ensures ExtractGender(name) == Some(g)
    ensures ExtractYouthAge(name) == None
    ensures ExtractDpfLevels(name) == [l]
  {
    var w := Label(g);
    assert name == w + (" " + l);
    RankedNotWaiting(g, l, name);
    RankedTokens(g, l, name);
    RankingWord(l);
    GenderOfLabelFirst(name, g, [l]);
    RankedYouth(g, l, name);
    RankedDpf(g, l, name);
  }

  lemma RankedNotWaiting(g: Gender, l: string, name: string)
    requires IsRanking(l) && name == Label(g) + (" " + l)
    ensures !IsWaitingList(name)
  {
    LabelWord(g);
    RankingParts(l);
    NoVWAvoids(name);
    NotWaitingList(name);
  }

  lemma RankedTokens(g: Gender, l: string, name: string)
    requires IsRanking(l) && name == Label(g) + (" " + l)
    ensures Tokens(name) == [Label(g)] + [l]
  {
    LabelWord(g);
    RankingParts(l);
    TokensSkipWord(Label(g), l);
    TokensOfWord(l);
  }

  lemma RankedYouth(g: Gender, l: string, name: string)
    requires IsRanking(l) && Tokens(name) == [Label(g)] + [l]
    ensures ExtractYouthAge(name) == None
  {
    LabelNames(g);
    RankingWord(l);
    var ts := Tokens(name);
    assert ts[0] == Label(g) && ts[1] == l && |ts| == 2;
    YouthOfTokens(name, ts);
  }

  lemma RankedDpf(g: Gender, l: string, name: string)
    requires IsRanking(l) && name == Label(g) + (" " + l)
    ensures ExtractDpfLevels(name) == [l]
  {
    LabelWord(g);
    DpfSkipWord(Label(g), l);
    RankingScan(l);
  }

  /** A name whose tokens name no youth age has none. */
  lemma YouthOfTokens(name: string, ts: seq<string>)
    requires Tokens(name) == ts
    requires forall i :: 0 <= i < |ts| ==> Fold(ts[i]) !in YouthPattern.alts
    ensures ExtractYouthAge(name) == None
  {
    ExtractYouthByTokens(name);
  }

  /** A name whose second token is a youth label, after a label. */
  lemma YouthSecond(name: string, g: Gender, y: Youth, rest: seq<string>)
    requires Tokens(name) == [Label(g), YouthLabel(y)] + rest
    ensures ExtractYouthAge(name) == Some(y)
  {
    var ts := Tokens(name);
    LabelNames(g);
    YouthOfLabel(y);
    assert ts[0] == Label(g) && ts[1] == YouthLabel(y);
    assert ts[1..][0] == YouthLabel(y);
    assert FirstNamed(ts[1..], YouthPattern.alts) == 0;
    assert FirstNamed(ts, YouthPattern.alts) == 1;
    ExtractYouthByTokens(name);
  }

  /** A name made of a label, a youth label and a ranking, space separated. */
  lemma YouthRankedName(g: Gender, y: Youth, l: string, name: string)
    requires IsRanking(l) && name == Label(g) + " " + YouthLabel(y) + " " + l
    ensures !IsWaitingList(name)
    ensures ExtractGender(name) == Some(g)
    ensures ExtractYouthAge(name) == Some(y)
    ensures ExtractDpfLevels(name) == [l]
  {
    var w := Label(g);
    var u := YouthLabel(y);
    assert name == w + (" " + (u + (" " + l)));
    YouthRankedNotWaiting(g, y, l, name);
    YouthRankedTokens(g, y, l, name);
    YouthWord(y);
    RankingWord(l);
    GenderOfLabelFirst(name, g, [u, l]);
    YouthSecond(name, g, y, [l]);
    YouthRankedDpf(g, y, l, name);
  }

  lemma YouthRankedNotWaiting(g: Gender, y: Youth, l: string, name: string)
    requires IsRanking(l) && name == Label(g) + (" " + (YouthLabel(y) + (" " + l)))
    ensures !IsWaitingList(name)
  {
    LabelWord(g);
    YouthWord(y);
    RankingParts(l);
    NoVWAvoids(name);
    NotWaitingList(name);
  }

  lemma YouthRankedTokens(g: Gender, y: Youth, l: string, name: string)
    requires IsRanking(l) && name == Label(g) + (" " + (YouthLabel(y) + (" " + l)))
    ensures Tokens(name) == [Label(g)] + [YouthLabel(y), l]
    ensures Tokens(name) == [Label(g), YouthLabel(y)] + [l]
  {
    var u := YouthLabel(y);
    LabelWord(g);
    YouthWord(y);
    RankingParts(l);
    TokensSkipWord(Label(g), u + (" " + l));
    TokensSkipWord(u, l);
    TokensOfWord(l);
  }

  lemma YouthRankedDpf(g: Gender, y: Youth, l: string, name: string)
    requires IsRanking(l) && name == Label(g) + (" " + (YouthLabel(y) + (" " + l)))
    ensures ExtractDpfLevels(name) == [l]
  {
    var u := YouthLabel(y);
    LabelWord(g);
    YouthWord(y);
    DpfSkipWord(Label(g), u + (" " + l));
    DpfSkipWord(u, l);
    RankingScan(l);
  }

  /** A name made of a label and a youth label: no level of any kind. */
  lemma YouthName(g: Gender, y: Youth, name: string)
    requires name == Label(g) + " " + YouthLabel(y)
    ensures !IsWaitingList(name)
    ensures ExtractGender(name) == Some(g)
    ensures ExtractYouthAge(name) == Some(y)
    ensures ExtractDpfLevels(name) == []
    ensures ExtractConcatenated(name).None?
    ensures ExtractDashLevels(name) == []
    ensures ExtractStandaloneLevels(name) == []
  {
    var w := Label(g);
    var u := YouthLabel(y);
    assert name == w + (" " + u);
    YouthNameNotWaiting(g, y, name);
    YouthNameTokens(g, y, name);
    YouthWord(y);
    GenderOfLabelFirst(name, g, [u]);
    YouthSecond(name, g, y, []);
    YouthNameDpf(g, y, name);
    YouthNameConcat(g, y, name);
    YouthNameDash(g, y, name);
    YouthNameStandalone(g, y, name);
  }

  lemma YouthNameNotWaiting(g: Gender, y: Youth, name: string)
    requires name == Label(g) + (" " + YouthLabel(y))
    ensures !IsWaitingList(name)
  {
    LabelWord(g);
    YouthWord(y);
    NoVWAvoids(name);
    NotWaitingList(name);
  }

  lemma YouthNameTokens(g: Gender, y: Youth, name: string)
    requires name == Label(g) + (" " + YouthLabel(y))
    ensures Tokens(name) == [Label(g)] + [YouthLabel(y)]
    ensures Tokens(name) == [Label(g), YouthLabel(y)] + []
    ensures Tokens(name) == [Label(g), YouthLabel(y)]
  {
    LabelWord(g);
    YouthWord(y);
    TokensSkipWord(Label(g), YouthLabel(y));
    TokensOfWord(YouthLabel(y));
  }

  lemma YouthNameDpf(g: Gender, y: Youth, name: string)
    requires name == Label(g) + (" " + YouthLabel(y))
    ensures ExtractDpfLevels(name) == []
  {
    var u := YouthLabel(y);
    LabelWord(g);
    YouthWord(y);
    DpfSkipWord(Label(g), u);
    TagScanSkipWord(u, []);
    assert u + [] == u;
  }

  lemma YouthNameConcat(g: Gender, y: Youth, name: string)
    requires Tokens(name) == [Label(g), YouthLabel(y)]
    ensures ExtractConcatenated(name).None?
  {
    var w := Label(g);
    var u := YouthLabel(y);
    LabelWord(g);
    YouthWord(y);
    ExtractConcatenatedByTokens(name);
    var ts := [w, u];
    assert ts[0] == w && ts[1..] == [u] && [u][0] == u && [u][1..] == [];
    assert FirstToken(ConcatPattern, [u]) == None;
  }

  lemma YouthNameDash(g: Gender, y: Youth, name: string)
    requires name == Label(g) + (" " + YouthLabel(y))
    ensures ExtractDashLevels(name) == []
  {
    LabelWord(g);
    YouthWord(y);
    DashLevelsNeedParen(name);
  }

  lemma YouthNameStandalone(g: Gender, y: Youth, name: string)
    requires Tokens(name) == [Label(g), YouthLabel(y)]
    ensures ExtractStandaloneLevels(name) == []
  {
    var w := Label(g);
    var u := YouthLabel(y);
    LabelWord(g);
    YouthWord(y);
    ExtractStandaloneByTokens(name);
    var ts := [w, u];
    assert ts[0] == w && ts[1..] == [u] && [u][0] == u && [u][1..] == [];
    assert LevelWords([u]) == [];
  }

  // ---------------------------------------------------------------------
  // The round trip
  // ---------------------------------------------------------------------

  /** Classifying the name of a series the classifier can emit gives exactly
      that series, not marked as a waiting list. */
  lemma EmittedNameIsFixed(g: Gender, y: Option<Youth>, ranking: Option<string>)
    requires Emittable(g, y, ranking)
    ensures NormalizeClassName(SeriesFor(g, y, ranking).name) == Classification(false, [SeriesFor(g, y, ranking)])
  {
    var s := SeriesFor(g, y, ranking);
    var name := s.name;
    if ranking.Some? {
      var l := ranking.value;
      if y.Some? {
        YouthRankedName(g, y.value, l, name);
      } else {
        RankedName(g, l, name);
      }
      var r := Synthesize(Some(g), y, [l]);
      assert |r| == 1 && r[0] == s;
      assert r == [s];
    } else {
      YouthName(g, y.value, name);
    }
  }

  /** Idempotence: every series that `NormalizeClassName` returns for any name
      classifies back to exactly that series. */
  lemma EmittedSeriesFixed(name: string)
    ensures forall s :: s in NormalizeClassName(name).series ==>
      NormalizeClassName(s.name) == Classification(false, [s])
  {
    var series := NormalizeClassName(name).series;
    var c := Cascade(name);
    var y := ExtractYouthAge(name);
    forall s | s in series ensures NormalizeClassName(s.name) == Classification(false, [s]) {
      assert series == Synthesize(c.0, y, c.1);
      var i :| 0 <= i < |series| && series[i] == s;
      if c.1 != [] {
        assert IsRanking(c.1[i]);
        EmittedNameIsFixed(c.0.value, y, Some(c.1[i]));
      } else {
        EmittedNameIsFixed(c.0.value, y, None);
      }
    }
  }
}
