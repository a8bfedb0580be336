/** The token view of a string: its maximal runs of word characters.

    A word-bounded pattern whose alternatives are made of word characters can
    only match a whole token, so each positional matcher of `Regex` has a
    token-level counterpart here, and the lemmas of this module prove the two
    equal on every input. */
module TokenView {
  import opened Base
  import opened Chars
  import opened Regex

  /** The maximal runs of word characters of `s`, left to right. */
  function Tokens(s: string): (r: seq<string>)
    ensures forall i :: 0 <= i < |r| ==> |r[i]| > 0 && AllWordChars(r[i])
    decreases |s|
  {
    if s == [] then []
    else if !IsWordChar(s[0]) then Tokens(s[1..])
    else
      var n := Run(s, Word);
      RunAll(s, Word);
      [s[..n]] + Tokens(s[n..])
  }

  /** An alternative written in lower case and made of word characters. */
  predicate WordLikeAlt(w: string) {
    |w| > 0 && AllWordChars(w) && Fold(w) == w
  }

  predicate WordLike(alts: seq<string>) {
    forall i :: 0 <= i < |alts| ==> WordLikeAlt(alts[i])
  }

  /** Alternative `w` of `p` matched against a whole token `t`. */
  function AltToken(p: WordPattern, t: string, w: string): (r: Option<Hit>)
    ensures r.Some? ==> r.value.Len() == |t|
  {
    match p.shape
    case Whole => if Fold(t) == w then Some(Hit(w, [])) else None
    case Digits =>
      if FoldPrefix(t, w) && |w| < |t| && AllDigits(t[|w|..]) then Some(Hit(w, t[|w|..])) else None
  }

  function AltsToken(p: WordPattern, t: string, alts: seq<string>): (r: Option<Hit>)
    ensures r.Some? ==> r.value.Len() == |t|
  {
    if alts == [] then None
    else
      var h := AltToken(p, t, alts[0]);
      if h.Some? then h else AltsToken(p, t, alts[1..])
  }

  /** The match of `p` on a whole token, if any. */
  function TokenHit(p: WordPattern, t: string): (r: Option<Hit>)
    ensures r.Some? ==> r.value.Len() == |t|
  {
    AltsToken(p, t, p.alts)
  }

  /** The first token that `p` matches. */
  function FirstToken(p: WordPattern, ts: seq<string>): Option<Hit> {
    if ts == [] then None
    else
      var h := TokenHit(p, ts[0]);
      if h.Some? then h else FirstToken(p, ts[1..])
  }

  /** The matches of `p` on the tokens that it matches, in order. */
  function AllTokens(p: WordPattern, ts: seq<string>): seq<Hit> {
    if ts == [] then []
    else
      var h := TokenHit(p, ts[0]);
      (if h.Some? then [h.value] else []) + AllTokens(p, ts[1..])
  }

  // ---------------------------------------------------------------------
  // One attempt
  // ---------------------------------------------------------------------

  /** A folded prefix equal to a word-like alternative is made of word characters. */
  lemma FoldPrefixWordChars(s: string, w: string)
    requires WordLikeAlt(w) && FoldPrefix(s, w)
    ensures forall k :: 0 <= k < |w| ==> IsWordChar(s[k])
  {
    forall k | 0 <= k < |w| ensures IsWordChar(s[k]) {
      FoldAt(s[..|w|], k);
      assert IsWordChar(w[k]);
    }
  }

  /** At the start of a token, an attempt of one alternative is the token-level test. */
  lemma AltAtTokenStart(p: WordPattern, s: string, w: string)
    requires WordLikeAlt(w)
    requires s != [] && IsWordChar(s[0])
    ensures AltAt(p, false, s, w) == AltToken(p, s[..Run(s, Word)], w)
  {
    match p.shape
    case Whole =>
      if AltAt(p, false, s, w).Some? { WholeMatchIsToken(p, s, w); }
      if AltToken(p, s[..Run(s, Word)], w).Some? { WholeTokenIsMatch(p, s, w); }
    case Digits =>
      if AltAt(p, false, s, w).Some? { DigitsMatchIsToken(p, s, w); }
      if AltToken(p, s[..Run(s, Word)], w).Some? { DigitsTokenIsMatch(p, s, w); }
  }

  lemma WholeMatchIsToken(p: WordPattern, s: string, w: string)
    requires p.shape == Whole && WordLikeAlt(w)
    requires s != [] && IsWordChar(s[0])
    requires AltAt(p, false, s, w).Some?
    ensures AltToken(p, s[..Run(s, Word)], w) == AltAt(p, false, s, w)
  {
    FoldPrefixWordChars(s, w);
    assert |w| == |s| || !InClass(s[|w|], Word);
    RunIs(s, Word, |w|);
  }

  lemma WholeTokenIsMatch(p: WordPattern, s: string, w: string)
    requires p.shape == Whole && WordLikeAlt(w)
    requires s != [] && IsWordChar(s[0])
    requires AltToken(p, s[..Run(s, Word)], w).Some?
    ensures AltAt(p, false, s, w) == AltToken(p, s[..Run(s, Word)], w)
  {
    var n := Run(s, Word);
    assert |w| == n;
    assert s[..|w|] == s[..n];
    assert IsWordChar(s[|w| - 1]) by { RunClass(s, Word, n - 1); }
  }

  lemma DigitsMatchIsToken(p: WordPattern, s: string, w: string)
    requires p.shape == Digits && WordLikeAlt(w)
    requires s != [] && IsWordChar(s[0])
    requires AltAt(p, false, s, w).Some?
    ensures AltToken(p, s[..Run(s, Word)], w) == AltAt(p, false, s, w)
  {
    var d := Run(s[|w|..], Digit);
    var x := s[|w|..|w| + d];
    DigitsAt(p, s, w, d, x);
    DigitsTokenOfHit(p, s, w, d, x);
  }

  /** What a successful digits-shaped attempt at a token start consists of. */
  lemma DigitsAt(p: WordPattern, s: string, w: string, d: nat, x: string)
    requires p.shape == Digits
    requires AltAt(p, false, s, w).Some?
    requires |w| <= |s| && d == Run(s[|w|..], Digit) && x == s[|w|..|w| + d]
    ensures FoldPrefix(s, w) && 0 < d
    ensures |w| + d == |s| || !IsWordChar(s[|w| + d])
    ensures AltAt(p, false, s, w) == Some(Hit(w, x))
  {
    if d > 0 {
      RunClass(s[|w|..], Digit, d - 1);
      assert s[|w|..][d - 1] == s[|w| + d - 1];
    }
  }

  lemma DigitsTokenOfHit(p: WordPattern, s: string, w: string, d: nat, x: string)
    requires p.shape == Digits && WordLikeAlt(w)
    requires FoldPrefix(s, w) && 0 < d && d == Run(s[|w|..], Digit)
    requires |w| + d == |s| || !IsWordChar(s[|w| + d])
    requires x == s[|w|..|w| + d]
    ensures AltToken(p, s[..Run(s, Word)], w) == Some(Hit(w, x))
  {
    DigitsTokenLength(s, w, d);
    var t := s[..|w| + d];
    DigitsTokenParts(s, w, d, t, x);
    DigitsTokenHit(p, t, w, x);
    assert s[..Run(s, Word)] == t;
  }

  lemma DigitsTokenHit(p: WordPattern, t: string, w: string, x: string)
    requires p.shape == Digits
    requires FoldPrefix(t, w) && |w| < |t| && t[|w|..] == x && AllDigits(x)
    ensures AltToken(p, t, w) == Some(Hit(w, x))
  {
  }

  /** The token ending the digit run splits into the alternative and the digits. */
  lemma DigitsTokenParts(s: string, w: string, d: nat, t: string, x: string)
    requires FoldPrefix(s, w) && 0 < d
    requires d == Run(s[|w|..], Digit)
    requires t == s[..|w| + d] && x == s[|w|..|w| + d]
    ensures FoldPrefix(t, w) && |w| < |t|
    ensures t[|w|..] == x
    ensures AllDigits(x)
  {
    var u := s[|w|..];
    assert t[..|w|] == s[..|w|];
    assert x == u[..d];
    forall k | 0 <= k < d ensures IsDigit(x[k]) {
      RunClass(u, Digit, k);
    }
  }

  /** Word characters up to `m` followed by a digit run that ends the word. */
  lemma DigitsTokenLength(s: string, w: string, d: nat)
    requires WordLikeAlt(w) && FoldPrefix(s, w)
    requires |w| + d <= |s| && 0 < d
    requires d == Run(s[|w|..], Digit)
    requires |w| + d == |s| || !IsWordChar(s[|w| + d])
    ensures Run(s, Word) == |w| + d
  {
    var m := |w|;
    FoldPrefixWordChars(s, w);
    var u := s[m..];
    forall k | 0 <= k < m + d ensures InClass(s[k], Word) {
      if k >= m {
        RunClass(u, Digit, k - m);
      }
    }
    RunIs(s, Word, m + d);
  }

  lemma DigitsTokenIsMatch(p: WordPattern, s: string, w: string)
    requires p.shape == Digits && WordLikeAlt(w)
    requires s != [] && IsWordChar(s[0])
    requires AltToken(p, s[..Run(s, Word)], w).Some?
    ensures AltAt(p, false, s, w) == AltToken(p, s[..Run(s, Word)], w)
  {
    var n := Run(s, Word);
    var t := s[..n];
    var x := t[|w|..];
    TokenDigits(p, t, w, x);
    assert FoldPrefix(s, w) by { assert s[..|w|] == t[..|w|]; }
    DigitRunOfToken(s, w, n, x);
    DigitsAtOf(p, s, w, |x|, x);
  }

  /** What a digits-shaped match of a whole token consists of. */
  lemma TokenDigits(p: WordPattern, t: string, w: string, x: string)
    requires p.shape == Digits && AltToken(p, t, w).Some?
    requires |w| <= |t| && x == t[|w|..]
    ensures FoldPrefix(t, w) && |w| < |t| && AllDigits(x)
    ensures AltToken(p, t, w) == Some(Hit(w, x))
  {
  }

  /** The digits closing a token are the digit run after the alternative. */
  lemma DigitRunOfToken(s: string, w: string, n: nat, x: string)
    requires n == Run(s, Word) && |w| < n
    requires x == s[..n][|w|..] && AllDigits(x)
    ensures |w| + |x| == n && Run(s[|w|..], Digit) == |x|
    ensures x == s[|w|..|w| + |x|]
  {
    var u := s[|w|..];
    forall k | 0 <= k < |x| ensures InClass(u[k], Digit) {
      assert u[k] == x[k];
    }
    assert |x| == |u| || !InClass(u[|x|], Digit) by {
      if n < |s| { assert u[|x|] == s[n]; }
    }
    RunIs(u, Digit, |x|);
  }

  /** A digits-shaped attempt at a token start, given its parts. */
  lemma DigitsAtOf(p: WordPattern, s: string, w: string, d: nat, x: string)
    requires p.shape == Digits && 0 < |w| && s != [] && IsWordChar(s[0])
    requires FoldPrefix(s, w) && 0 < d && |w| + d <= |s|
    requires d == Run(s[|w|..], Digit) && x == s[|w|..|w| + d]
    requires |w| + d == |s| || !IsWordChar(s[|w| + d])
    ensures AltAt(p, false, s, w) == Some(Hit(w, x))
  {
    RunClass(s[|w|..], Digit, d - 1);
    assert s[|w|..][d - 1] == s[|w| + d - 1];
  }

  lemma AltsAtTokenStart(p: WordPattern, s: string, alts: seq<string>)
    requires WordLike(alts)
    requires s != [] && IsWordChar(s[0])
    ensures AltsAt(p, false, s, alts) == AltsToken(p, s[..Run(s, Word)], alts)
  {
    if alts != [] {
      AltAtTokenStart(p, s, alts[0]);
      AltsAtTokenStart(p, s, alts[1..]);
    }
  }

  /** No alternative matches where the input does not start with a word character. */
  lemma AltsAtNonWord(p: WordPattern, prevWord: bool, s: string, alts: seq<string>)
    requires WordLike(alts)
    requires s == [] || !IsWordChar(s[0])
    ensures AltsAt(p, prevWord, s, alts).None?
  {
    if alts != [] {
      if AltAt(p, prevWord, s, alts[0]).Some? {
        FoldPrefixWordChars(s, alts[0]);
        assert false;
      }
      AltsAtNonWord(p, prevWord, s, alts[1..]);
    }
  }

  /** No alternative matches inside a token: there is no `\b` there. */
  lemma AltsAtInside(p: WordPattern, s: string, alts: seq<string>)
    requires s != [] && IsWordChar(s[0])
    ensures AltsAt(p, true, s, alts).None?
  {
    if alts != [] {
      AltsAtInside(p, s, alts[1..]);
    }
  }

  // ---------------------------------------------------------------------
  // Leftmost match
  // ---------------------------------------------------------------------

  lemma {:induction false} FirstWordSkipRun(p: WordPattern, s: string, k: nat)
    requires 1 <= k <= Run(s, Word)
    ensures FirstWord(p, true, s[k..]) == FirstWord(p, true, s[Run(s, Word)..])
    decreases Run(s, Word) - k
  {
    var n := Run(s, Word);
    if k < n {
      RunClass(s, Word, k);
      AltsAtInside(p, s[k..], p.alts);
      assert s[k..][1..] == s[k + 1..];
      FirstWordSkipRun(p, s, k + 1);
    }
  }

  lemma FirstWordContext(p: WordPattern, s: string)
    requires WordLike(p.alts)
    requires s == [] || !IsWordChar(s[0])
    ensures FirstWord(p, true, s) == FirstWord(p, false, s)
  {
    if s != [] {
      AltsAtNonWord(p, true, s, p.alts);
      AltsAtNonWord(p, false, s, p.alts);
    }
  }

  /** The leftmost positional match is the match on the first matching token. */
  lemma {:induction false} FirstWordIsFirstToken(p: WordPattern, s: string)
    requires WordLike(p.alts)
    ensures FirstWord(p, false, s) == FirstToken(p, Tokens(s))
    decreases |s|
  {
    if s == [] {
    } else if !IsWordChar(s[0]) {
      AltsAtNonWord(p, false, s, p.alts);
      FirstWordIsFirstToken(p, s[1..]);
    } else {
      var n := Run(s, Word);
      AltsAtTokenStart(p, s, p.alts);
      assert Tokens(s) == [s[..n]] + Tokens(s[n..]);
      if WordAt(p, false, s).None? {
        FirstWordSkipRun(p, s, 1);
        FirstWordContext(p, s[n..]);
        FirstWordIsFirstToken(p, s[n..]);
      }
    }
  }

  // ---------------------------------------------------------------------
  // Global scan
  // ---------------------------------------------------------------------

  lemma {:induction false} AllWordsSkipRun(p: WordPattern, s: string, k: nat)
    requires 1 <= k <= Run(s, Word)
    ensures AllWords(p, true, s[k..]) == AllWords(p, true, s[Run(s, Word)..])
    decreases Run(s, Word) - k
  {
    var n := Run(s, Word);
    if k < n {
      RunClass(s, Word, k);
      AltsAtInside(p, s[k..], p.alts);
      assert s[k..][1..] == s[k + 1..];
      AllWordsSkipRun(p, s, k + 1);
    }
  }

  lemma AllWordsContext(p: WordPattern, s: string)
    requires WordLike(p.alts)
    requires s == [] || !IsWordChar(s[0])
    ensures AllWords(p, true, s) == AllWords(p, false, s)
  {
    if s != [] {
      AltsAtNonWord(p, true, s, p.alts);
      AltsAtNonWord(p, false, s, p.alts);
    }
  }

  /** The global exec loop finds exactly the matches on matching tokens, in order. */
  lemma {:induction false} AllWordsAreAllTokens(p: WordPattern, s: string)
    requires WordLike(p.alts)
    ensures AllWords(p, false, s) == AllTokens(p, Tokens(s))
    decreases |s|
  {
    if s == [] {
    } else if !IsWordChar(s[0]) {
      AltsAtNonWord(p, false, s, p.alts);
      AllWordsAreAllTokens(p, s[1..]);
    } else {
      var n := Run(s, Word);
      AllWordsAtToken(p, s);
      assert Tokens(s) == [s[..n]] + Tokens(s[n..]);
      AllWordsAreAllTokens(p, s[n..]);
    }
  }

  /** At the start of a token the loop finds the token's match, if any, and
      goes on from the end of the token. */
  lemma AllWordsAtToken(p: WordPattern, s: string)
    requires WordLike(p.alts)
    requires s != [] && IsWordChar(s[0])
    ensures var h := TokenHit(p, s[..Run(s, Word)]);
      AllWords(p, false, s) == (if h.Some? then [h.value] else []) + AllWords(p, false, s[Run(s, Word)..])
  {
    var n := Run(s, Word);
    AltsAtTokenStart(p, s, p.alts);
    if WordAt(p, false, s).Some? {
      assert WordAt(p, false, s).value.Len() == n;
      assert IsWordChar(s[n - 1]) by { RunClass(s, Word, n - 1); }
    } else {
      AllWordsSkipRun(p, s, 1);
      assert [] + AllWords(p, false, s[n..]) == AllWords(p, false, s[n..]);
    }
    AllWordsContext(p, s[n..]);
  }

  // ---------------------------------------------------------------------
  // Tokens of space-separated words
  // ---------------------------------------------------------------------

  /** A word followed by a non-word character contributes itself as a token. */
  lemma TokensOfWordThen(w: string, c: char, rest: string)
    requires |w| > 0 && AllWordChars(w) && !IsWordChar(c)
    ensures Tokens(w + [c] + rest) == [w] + Tokens(rest)
  {
    var s := w + [c] + rest;
    forall k | 0 <= k < |w| ensures InClass(s[k], Word) {
      assert s[k] == w[k];
    }
    assert s[|w|] == c;
    RunIs(s, Word, |w|);
    assert s[..|w|] == w;
    assert s[|w|..] == [c] + rest;
    assert ([c] + rest)[1..] == rest;
  }

  /** A lone word is its only token. */
  lemma TokensOfWord(w: string)
    requires |w| > 0 && AllWordChars(w)
    ensures Tokens(w) == [w]
  {
    forall k | 0 <= k < |w| ensures InClass(w[k], Word) {
    }
    RunCovers(w, Word, |w|);
    assert w[..|w|] == w;
  }

  // ---------------------------------------------------------------------
  // Token-level facts
  // ---------------------------------------------------------------------

  /** The position of the first token that `p` matches, or `|ts|`. */
  function FirstIndex(p: WordPattern, ts: seq<string>): (r: nat)
    ensures r <= |ts|
    ensures forall j :: 0 <= j < r ==> TokenHit(p, ts[j]).None?
    ensures r < |ts| ==> TokenHit(p, ts[r]).Some?
  {
    if ts == [] then 0
    else if TokenHit(p, ts[0]).Some? then 0
    else
      var r := FirstIndex(p, ts[1..]);
      assert forall j :: 1 <= j < |ts| ==> ts[j] == ts[1..][j - 1];
      1 + r
  }

  /** `FirstToken` is the hit on the token at `FirstIndex`. */
  lemma {:induction false} FirstTokenAtIndex(p: WordPattern, ts: seq<string>)
    ensures FirstToken(p, ts) == if FirstIndex(p, ts) < |ts| then TokenHit(p, ts[FirstIndex(p, ts)]) else None
  {
    if ts != [] && TokenHit(p, ts[0]).None? {
      FirstTokenAtIndex(p, ts[1..]);
    }
  }

  /** A whole-word pattern matches a token exactly when the token, case
      folded, is one of its alternatives. */
  lemma {:induction false} WholeAltsToken(p: WordPattern, t: string, alts: seq<string>)
    requires p.shape == Whole
    ensures AltsToken(p, t, alts).Some? <==> Fold(t) in alts
    ensures AltsToken(p, t, alts).Some? ==> AltsToken(p, t, alts).value == Hit(Fold(t), [])
  {
    if alts != [] {
      WholeAltsToken(p, t, alts[1..]);
    }
  }

  lemma WholeTokenHit(p: WordPattern, t: string)
    requires p.shape == Whole
    ensures TokenHit(p, t).Some? <==> Fold(t) in p.alts
    ensures TokenHit(p, t).Some? ==> TokenHit(p, t).value == Hit(Fold(t), [])
  {
    WholeAltsToken(p, t, p.alts);
  }

  /** The words of the matches of `p`, one per matched token. */
  function HitWords(hs: seq<Hit>): (r: seq<string>)
    ensures |r| == |hs|
    ensures forall i :: 0 <= i < |hs| ==> r[i] == hs[i].word
  {
    if hs == [] then [] else [hs[0].word] + HitWords(hs[1..])
  }
}
