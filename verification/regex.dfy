/** Hand-rolled matchers for the fixed regular expressions of the classifier,
    with the semantics of JavaScript regular expressions without the `u` flag.

    Matchers are written over the remaining input `rest` together with
    `prevWord`, which says whether the character just before `rest` is a word
    character (false at the start of the input); that is all `\b` looks at.
    A global (`g`) `exec` loop becomes a left-to-right scan that, after a match,
    resumes right behind it and, after a failed attempt, moves on by one
    character; a single `exec`, `match` or `test` is the leftmost match. */
module Regex {
  import opened Base
  import opened Chars

  /** `\b` at the start of `rest`. */
  predicate Boundary(prevWord: bool, rest: string) {
    prevWord != (|rest| > 0 && IsWordChar(rest[0]))
  }

  // ---------------------------------------------------------------------
  // Word-bounded alternations, with or without a trailing digit group
  // ---------------------------------------------------------------------

  /** `Whole` is `\b(a1|...|an)\b`; `Digits` is `\b(a1|...|an)(\d+)\b`. */
  datatype Shape = Whole | Digits

  /** A word-bounded pattern; the alternatives are written in lower case and
      matched up to ASCII case, as with the `i` flag. */
  datatype WordPattern = WordPattern(alts: seq<string>, shape: Shape)

  /** A successful match: the alternative that matched and the text of the
      `(\d+)` group (empty for `Whole`). */
  datatype Hit = Hit(word: string, digits: string) {
    function Len(): nat { |word| + |digits| }
  }

  /** Alternative `w` of pattern `p` at the start of `rest`. Greedy `\d+`
      followed by `\b` never needs backtracking: a shorter digit run would be
      followed by a digit, where `\b` fails. */
  function AltAt(p: WordPattern, prevWord: bool, rest: string, w: string): (r: Option<Hit>)
    ensures r.Some? ==> r.value.word == w && 0 < r.value.Len() <= |rest|
  {
    if 0 < |w| && Boundary(prevWord, rest) && FoldPrefix(rest, w) then
      match p.shape
      case Whole =>
        if Boundary(IsWordChar(rest[|w| - 1]), rest[|w|..]) then Some(Hit(w, [])) else None
      case Digits =>
        var d := Run(rest[|w|..], Digit);
        if d > 0 && Boundary(IsWordChar(rest[|w| + d - 1]), rest[|w| + d..])
        then Some(Hit(w, rest[|w|..|w| + d]))
        else None
    else None
  }

  /** The first alternative, in pattern order, that matches at the start of `rest`. */
  function AltsAt(p: WordPattern, prevWord: bool, rest: string, alts: seq<string>): (r: Option<Hit>)
    ensures r.Some? ==> r.value.word in alts && AltAt(p, prevWord, rest, r.value.word) == r
    ensures r.None? ==> forall i :: 0 <= i < |alts| ==> AltAt(p, prevWord, rest, alts[i]).None?
  {
    if alts == [] then None
    else
      var h := AltAt(p, prevWord, rest, alts[0]);
      if h.Some? then h else AltsAt(p, prevWord, rest, alts[1..])
  }

  /** An attempt of `p` at the start of `rest`. */
  function WordAt(p: WordPattern, prevWord: bool, rest: string): (r: Option<Hit>)
    ensures r.Some? ==> r.value.word in p.alts && 0 < r.value.Len() <= |rest|
  {
    AltsAt(p, prevWord, rest, p.alts)
  }

  /** The leftmost match of `p` in `s`: what `test`, `match` and one `exec` find. */
  function FirstWord(p: WordPattern, prevWord: bool, s: string): (r: Option<Hit>)
    ensures r.Some? ==> r.value.word in p.alts
    decreases |s|
  {
    if s == [] then None
    else
      var h := WordAt(p, prevWord, s);
      if h.Some? then h else FirstWord(p, IsWordChar(s[0]), s[1..])
  }

  /** Every match of a global `exec` loop over `s`, left to right. */
  function AllWords(p: WordPattern, prevWord: bool, s: string): (r: seq<Hit>)
    ensures forall i :: 0 <= i < |r| ==> r[i].word in p.alts
    decreases |s|
  {
    if s == [] then []
    else
      var h := WordAt(p, prevWord, s);
      if h.Some? then
        var n := h.value.Len();
        [h.value] + AllWords(p, IsWordChar(s[n - 1]), s[n..])
      else AllWords(p, IsWordChar(s[0]), s[1..])
  }

  // ---------------------------------------------------------------------
  // Lists of numbers: `\d+(?:[seps]\d+)*`
  // ---------------------------------------------------------------------

  /** Greedy parse of `\d+(?:[seps]\d+)*` at the start of `s`: the digit runs
      (what splitting the matched text on the separators gives) and the length
      matched. A separator not followed by a digit ends the list before it. */
  function DigitList(s: string, seps: seq<char>): (r: (seq<string>, nat))
    requires Run(s, Digit) > 0
    ensures 0 < r.1 <= |s|
    ensures |r.0| > 0
    decreases |s|
  {
    var d := Run(s, Digit);
    if d < |s| && s[d] in seps && Run(s[d + 1..], Digit) > 0 then
      var rest := DigitList(s[d + 1..], seps);
      ([s[..d]] + rest.0, d + 1 + rest.1)
    else ([s[..d]], d)
  }

  /** A list of numbers ends with a digit. */
  lemma {:induction false} DigitListEndsWithDigit(s: string, seps: seq<char>)
    requires Run(s, Digit) > 0
    ensures IsDigit(s[DigitList(s, seps).1 - 1])
    decreases |s|
  {
    var d := Run(s, Digit);
    RunClass(s, Digit, d - 1);
    if d < |s| && s[d] in seps && Run(s[d + 1..], Digit) > 0 {
      var rest := DigitList(s[d + 1..], seps);
      DigitListEndsWithDigit(s[d + 1..], seps);
      assert s[d + 1..][rest.1 - 1] == s[d + rest.1];
    }
  }

  /** `\b<tag>\s*(\d+(?:[seps]\d+)*)` with the `i` flag, at the start of
      `rest`: the numbers of the group and the match length. There is no `\b`
      after the numbers, so "DPF25A" matches with 25. */
  function TagListAt(prevWord: bool, rest: string, tag: string, seps: seq<char>): (r: Option<(seq<string>, nat)>)
    ensures r.Some? ==> 0 < r.value.1 <= |rest|
  {
    if 0 < |tag| && Boundary(prevWord, rest) && FoldPrefix(rest, tag) then
      var k := |tag| + Run(rest[|tag|..], Space);
      if Run(rest[k..], Digit) > 0 then
        var nums := DigitList(rest[k..], seps);
        Some((nums.0, k + nums.1))
      else None
    else None
  }

  /** A match of the tag pattern ends with a digit, a word character: this is
      why the scan below resumes with `prevWord` set. */
  lemma TagListAtEndsWithDigit(prevWord: bool, rest: string, tag: string, seps: seq<char>)
    requires TagListAt(prevWord, rest, tag, seps).Some?
    ensures var m := TagListAt(prevWord, rest, tag, seps).value;
      IsDigit(rest[m.1 - 1]) && IsWordChar(rest[m.1 - 1])
  {
    var k := |tag| + Run(rest[|tag|..], Space);
    TagListAtParts(prevWord, rest, tag, seps, k);
    DigitListEndsWithDigit(rest[k..], seps);
    var n := DigitList(rest[k..], seps).1;
    assert rest[k..][n - 1] == rest[k + n - 1];
  }

  /** A match of the tag pattern is the tag, the spacing and a list of numbers. */
  lemma TagListAtParts(prevWord: bool, rest: string, tag: string, seps: seq<char>, k: nat)
    requires TagListAt(prevWord, rest, tag, seps).Some?
    requires |tag| <= |rest| && k == |tag| + Run(rest[|tag|..], Space)
    ensures k <= |rest| && Run(rest[k..], Digit) > 0
    ensures TagListAt(prevWord, rest, tag, seps).value.1 == k + DigitList(rest[k..], seps).1
  {
  }

  /** The numbers of every match of the global tag pattern, in order. A
      match ends with a digit, so the scan resumes after a word character. */
  function TagListScan(prevWord: bool, s: string, tag: string, seps: seq<char>): (r: seq<string>)
    decreases |s|
  {
    if s == [] then []
    else
      match TagListAt(prevWord, s, tag, seps)
      case Some(m) => m.0 + TagListScan(true, s[m.1..], tag, seps)
      case None => TagListScan(IsWordChar(s[0]), s[1..], tag, seps)
  }

  /** `\((\d+(?:<sep>\d+)+)\)` at the start of `rest`: at least two numbers
      and a closing parenthesis right after the greedy list. */
  function ParenListAt(rest: string, sep: char): (r: Option<(seq<string>, nat)>)
    ensures r.Some? ==> 0 < r.value.1 <= |rest|
  {
    if |rest| > 0 && rest[0] == '(' && Run(rest[1..], Digit) > 0 then
      var nums := DigitList(rest[1..], [sep]);
      if |nums.0| >= 2 && 1 + nums.1 < |rest| && rest[1 + nums.1] == ')'
      then Some((nums.0, nums.1 + 2))
      else None
    else None
  }

  /** The numbers of every match of the global parenthesised-list pattern. */
  function ParenListScan(s: string, sep: char): (r: seq<string>)
    decreases |s|
  {
    if s == [] then []
    else
      match ParenListAt(s, sep)
      case Some(m) => m.0 + ParenListScan(s[m.1..], sep)
      case None => ParenListScan(s[1..], sep)
  }

  // ---------------------------------------------------------------------
  // Unanchored literal patterns
  // ---------------------------------------------------------------------

  /** `/w/i.test(s)` for a literal `w` written in lower case. */
  predicate ContainsFolded(s: string, w: string)
    decreases |s|
  {
    FoldPrefix(s, w) || (|s| > 0 && ContainsFolded(s[1..], w))
  }

  /** `/a\s*b/i.test(s)`: greedy `\s*` is never given back, since `b` starts
      with a character that is not `\s`. */
  predicate ContainsSpaced(s: string, a: string, b: string)
    decreases |s|
  {
    (FoldPrefix(s, a) && FoldPrefix(s[|a| + Run(s[|a|..], Space)..], b))
    || (|s| > 0 && ContainsSpaced(s[1..], a, b))
  }
}
