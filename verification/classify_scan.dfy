/** Properties of the tag, parenthesis and waiting-list scanners of the
    classifier: what a written list of levels gives back, and what text
    cannot trigger them. */
module ClassifyScan {
  import opened Base
  import opened Chars
  import opened Regex
  import opened Classify

  /** The numbers of `nums` written one after the other with `sep` between them. */
  function JoinWith(nums: seq<string>, sep: char): string
    requires |nums| > 0
  {
    if |nums| == 1 then nums[0] else nums[0] + [sep] + JoinWith(nums[1..], sep)
  }

  /** Non-empty runs of ASCII digits. */
  predicate Numbers(nums: seq<string>) {
    forall i :: 0 <= i < |nums| ==> |nums[i]| > 0 && AllDigits(nums[i])
  }

  lemma NumbersTail(nums: seq<string>)
    requires |nums| > 0 && Numbers(nums)
    ensures Numbers(nums[1..])
  {
    forall i | 0 <= i < |nums[1..]| ensures |nums[1..][i]| > 0 && AllDigits(nums[1..][i]) {
      assert nums[1..][i] == nums[i + 1];
    }
  }

  lemma JoinStartsWithDigit(nums: seq<string>, sep: char)
    requires |nums| > 0 && Numbers(nums)
    ensures |JoinWith(nums, sep)| > 0 && IsDigit(JoinWith(nums, sep)[0])
  {
    if |nums| > 1 {
      assert JoinWith(nums, sep)[0] == nums[0][0];
    }
  }

  /** A run of `cls` characters ended by the end of input or another character. */
  lemma RunOfBlock(a: string, b: string, cls: CharClass)
    requires forall k :: 0 <= k < |a| ==> InClass(a[k], cls)
    requires b == [] || !InClass(b[0], cls)
    ensures Run(a + b, cls) == |a|
  {
    var s := a + b;
    forall k | 0 <= k < |a| ensures InClass(s[k], cls) {
      assert s[k] == a[k];
    }
    assert |a| < |s| ==> s[|a|] == b[0];
    RunIs(s, cls, |a|);
  }

  lemma DigitsRun(a: string)
    requires AllDigits(a)
    ensures forall k :: 0 <= k < |a| ==> InClass(a[k], Digit)
  {
  }

  lemma DigitListStop(s: string, seps: seq<char>)
    requires Run(s, Digit) > 0
    requires Run(s, Digit) == |s| || s[Run(s, Digit)] !in seps
    ensures DigitList(s, seps) == ([s[..Run(s, Digit)]], Run(s, Digit))
  {
  }

  lemma DigitListMore(s: string, seps: seq<char>, a: string, r: string, nums: seq<string>, e: nat)
    requires 0 < |a| < |s| && Run(s, Digit) == |a| && s[|a|] in seps
    requires s[..|a|] == a && s[|a| + 1..] == r && Run(r, Digit) > 0
    requires DigitList(r, seps) == (nums, e)
    ensures DigitList(s, seps) == ([a] + nums, |a| + 1 + e)
  {
  }

  /** The last number of a list, before text that cannot continue it. */
  lemma DigitListOfLast(a: string, seps: seq<char>, tail: string)
    requires |a| > 0 && AllDigits(a)
    requires tail == [] || (!IsDigit(tail[0]) && tail[0] !in seps)
    ensures Run(a + tail, Digit) > 0
    ensures DigitList(a + tail, seps) == ([a], |a|)
  {
    var s := a + tail;
    DigitsRun(a);
    RunOfBlock(a, tail, Digit);
    SplitAt(a, tail);
    assert |a| < |s| ==> s[|a|] == tail[0];
    DigitListStop(s, seps);
  }

  /** A number, a separator, and a list after it. */
  lemma DigitListOfCons(a: string, sep: char, seps: seq<char>, r: string, nums: seq<string>, e: nat)
    requires |a| > 0 && AllDigits(a) && sep in seps && !IsDigit(sep)
    requires Run(r, Digit) > 0 && DigitList(r, seps) == (nums, e)
    ensures Run(a + ([sep] + r), Digit) > 0
    ensures DigitList(a + ([sep] + r), seps) == ([a] + nums, |a| + 1 + e)
  {
    var s := a + ([sep] + r);
    assert Run(s, Digit) == |a| by {
      DigitsRun(a);
      RunOfBlock(a, [sep] + r, Digit);
    }
    assert s[..|a|] == a && s[|a|] == sep && s[|a| + 1..] == r by {
      SplitAt(a, [sep] + r);
    }
    DigitListMore(s, seps, a, r, nums, e);
  }

  /** The numbers of `nums` joined by `sep`, followed by `tail`. */
  function JoinThen(nums: seq<string>, sep: char, tail: string): string
    requires |nums| > 0
  {
    if |nums| == 1 then nums[0] + tail else nums[0] + ([sep] + JoinThen(nums[1..], sep, tail))
  }

  lemma {:induction false} JoinThenIsJoin(nums: seq<string>, sep: char, tail: string)
    requires |nums| > 0
    ensures JoinThen(nums, sep, tail) == JoinWith(nums, sep) + tail
    decreases |nums|
  {
    if |nums| > 1 {
      JoinThenIsJoin(nums[1..], sep, tail);
    }
  }

  lemma {:induction false} DigitListOfJoinThen(nums: seq<string>, sep: char, seps: seq<char>, tail: string)
    requires |nums| > 0 && Numbers(nums) && sep in seps && !IsDigit(sep)
    requires tail == [] || (!IsDigit(tail[0]) && tail[0] !in seps)
    ensures Run(JoinThen(nums, sep, tail), Digit) > 0
    ensures DigitList(JoinThen(nums, sep, tail), seps).0 == nums
    ensures DigitList(JoinThen(nums, sep, tail), seps).1 + |tail| == |JoinThen(nums, sep, tail)|
    decreases |nums|
  {
    if |nums| == 1 {
      DigitListOfLast(nums[0], seps, tail);
      assert nums == [nums[0]];
    } else {
      NumbersTail(nums);
      var r := JoinThen(nums[1..], sep, tail);
      DigitListOfJoinThen(nums[1..], sep, seps, tail);
      DigitListOfCons(nums[0], sep, seps, r, nums[1..], DigitList(r, seps).1);
      assert [nums[0]] + nums[1..] == nums;
    }
  }

  /** The greedy list parse reads back exactly the numbers that were joined,
      when what follows cannot continue the list. */
  lemma DigitListOfJoin(nums: seq<string>, sep: char, seps: seq<char>, tail: string)
    requires |nums| > 0 && Numbers(nums) && sep in seps && !IsDigit(sep)
    requires tail == [] || (!IsDigit(tail[0]) && tail[0] !in seps)
    ensures Run(JoinWith(nums, sep) + tail, Digit) > 0
    ensures DigitList(JoinWith(nums, sep) + tail, seps) == (nums, |JoinWith(nums, sep)|)
  {
    JoinThenIsJoin(nums, sep, tail);
    DigitListOfJoinThen(nums, sep, seps, tail);
  }

  /** `Rankings` of a concatenation. */
  lemma {:induction false} RankingsAppend(a: seq<string>, b: seq<string>)
    ensures Rankings(a + b) == Rankings(a) + Rankings(b)
  {
    if a == [] {
      assert a + b == b;
    } else {
      assert (a + b)[0] == a[0];
      assert (a + b)[1..] == a[1..] + b;
      RankingsAppend(a[1..], b);
      var h := if IsLevel(a[0]) then ["DPF" + a[0]] else [];
      assert Rankings(a + b) == h + Rankings(a[1..] + b);
      assert Rankings(a) == h + Rankings(a[1..]);
    }
  }

  // ---------------------------------------------------------------------
  // DPF tags
  // ---------------------------------------------------------------------

  /** A character that is not a word character can neither start the tag nor
      sit inside it; after it, the scan starts afresh. */
  lemma TagScanAfterNonWord(c: char, r: string)
    requires !IsWordChar(c)
    ensures TagListScan(true, [c] + r, "dpf", DpfSeps) == TagListScan(false, r, "dpf", DpfSeps)
  {
    var s := [c] + r;
    assert s[1..] == r;
    if |s| >= 3 {
      FoldAt(s[..3], 0);
    }
    assert TagListAt(true, s, "dpf", DpfSeps).None?;
  }

  /** Word characters, checked one at a time. */
  predicate WordCharsRec(u: string) {
    u == [] || (IsWordChar(u[0]) && WordCharsRec(u[1..]))
  }

  lemma {:induction false} WordCharsRecOf(u: string)
    requires AllWordChars(u)
    ensures WordCharsRec(u)
    decreases |u|
  {
    if u != [] {
      assert AllWordChars(u[1..]) by {
        forall k | 0 <= k < |u| - 1 ensures IsWordChar(u[1..][k]) {
          assert u[1..][k] == u[k + 1];
        }
      }
      WordCharsRecOf(u[1..]);
    }
  }

  /** The tag cannot start inside a word: the scan passes over its characters. */
  lemma {:induction false} TagScanSkipInside(u: string, r: string)
    requires WordCharsRec(u)
    ensures TagListScan(true, u + r, "dpf", DpfSeps) == TagListScan(true, r, "dpf", DpfSeps)
    decreases |u|
  {
    if u == [] {
      assert u + r == r;
    } else {
      assert u + r == [u[0]] + (u[1..] + r);
      TagScanInWord(u[0], u[1..] + r);
      TagScanSkipInside(u[1..], r);
    }
  }

  /** Inside a word the tag pattern cannot start: the scan moves on. */
  lemma TagScanInWord(c: char, t: string)
    requires IsWordChar(c)
    ensures TagListScan(true, [c] + t, "dpf", DpfSeps) == TagListScan(true, t, "dpf", DpfSeps)
  {
    var s := [c] + t;
    assert s[0] == c && s[1..] == t;
    assert TagListAt(true, s, "dpf", DpfSeps).None?;
  }

  /** A word that does not begin with the tag contributes nothing. */
  lemma TagScanSkipWord(w: string, r: string)
    requires |w| >= 3 && AllWordChars(w) && !FoldPrefix(w, "dpf")
    requires r == [] || !IsWordChar(r[0])
    ensures TagListScan(false, w + r, "dpf", DpfSeps) == TagListScan(true, r, "dpf", DpfSeps)
  {
    TagScanWordStart(w, r);
    assert AllWordChars(w[1..]) by {
      forall k | 0 <= k < |w| - 1 ensures IsWordChar(w[1..][k]) {
        assert w[1..][k] == w[k + 1];
      }
    }
    WordCharsRecOf(w[1..]);
    TagScanSkipInside(w[1..], r);
  }

  /** A word not starting with the tag: the scan steps past its first character. */
  lemma TagScanWordStart(w: string, r: string)
    requires |w| >= 3 && IsWordChar(w[0]) && !FoldPrefix(w, "dpf")
    ensures TagListScan(false, w + r, "dpf", DpfSeps) == TagListScan(true, w[1..] + r, "dpf", DpfSeps)
  {
    var s := w + r;
    assert s[..3] == w[..3];
    assert s[0] == w[0];
    assert s[1..] == w[1..] + r;
    TagScanNoTag(false, s);
  }

  /** Where the tag does not start, the scan moves on by one character. */
  lemma TagScanNoTag(prevWord: bool, s: string)
    requires s != [] && !FoldPrefix(s, "dpf")
    ensures TagListScan(prevWord, s, "dpf", DpfSeps) == TagListScan(IsWordChar(s[0]), s[1..], "dpf", DpfSeps)
  {
    assert TagListAt(prevWord, s, "dpf", DpfSeps).None?;
  }

  /** Both halves of a concatenation can be sliced back out of it. */
  lemma SplitAt<T>(a: seq<T>, b: seq<T>)
    ensures (a + b)[..|a|] == a && (a + b)[|a|..] == b
  {
  }

  /** One match of the tag pattern, given its parts. */
  lemma TagListAtOf(s: string, k: nat, nums: seq<string>, e: nat)
    requires 3 <= k <= |s| && FoldPrefix(s, "dpf") && IsWordChar(s[0])
    requires Run(s[3..], Space) == k - 3
    requires Run(s[k..], Digit) > 0 && DigitList(s[k..], DpfSeps) == (nums, e)
    ensures TagListAt(false, s, "dpf", DpfSeps) == Some((nums, k + e))
  {
  }

  /** The scan takes a match and resumes after it. */
  lemma TagScanStep(s: string, tag: string, seps: seq<char>, nums: seq<string>, m: nat)
    requires TagListAt(false, s, tag, seps) == Some((nums, m))
    ensures m <= |s|
    ensures TagListScan(false, s, tag, seps) == nums + TagListScan(true, s[m..], tag, seps)
  {
  }

  /** A tag, any spacing, a list of numbers joined by `/` or `-`, and then
      text that cannot continue the list: the tag gives back those numbers. */
  lemma TagScanOfList(tag: string, sp: string, nums: seq<string>, sep: char, tail: string)
    requires |tag| == 3 && Fold(tag) == "dpf" && AllSpace(sp)
    requires |nums| > 0 && Numbers(nums) && sep in DpfSeps
    requires tail == [] || (!IsDigit(tail[0]) && tail[0] !in DpfSeps)
    ensures TagListScan(false, tag + (sp + (JoinWith(nums, sep) + tail)), "dpf", DpfSeps)
      == nums + TagListScan(true, tail, "dpf", DpfSeps)
  {
    var j := JoinWith(nums, sep);
    var s := tag + (sp + (j + tail));
    TagListAtOfJoin(tag, sp, nums, sep, tail, s);
  }

  lemma TagParts(tag: string, sp: string, j: string, tail: string, s: string)
    requires |tag| == 3 && s == tag + (sp + (j + tail))
    ensures s[0] == tag[0] && s[..3] == tag && s[3..] == sp + (j + tail)
    ensures s[3 + |sp|..] == j + tail && s[3 + |sp| + |j|..] == tail
  {
    SplitAt(tag, sp + (j + tail));
    SplitAt(sp, j + tail);
    SplitAt(j, tail);
    assert s[3..][|sp|..] == s[3 + |sp|..];
    assert s[3 + |sp|..][|j|..] == s[3 + |sp| + |j|..];
  }

  /** The tag pattern matches the tag, the spacing and the whole list, and the
      scan resumes behind the list. */
  lemma TagListAtOfJoin(tag: string, sp: string, nums: seq<string>, sep: char, tail: string, s: string)
    requires |tag| == 3 && Fold(tag) == "dpf" && AllSpace(sp)
    requires |nums| > 0 && Numbers(nums) && sep in DpfSeps
    requires tail == [] || (!IsDigit(tail[0]) && tail[0] !in DpfSeps)
    requires s == tag + (sp + (JoinWith(nums, sep) + tail))
    ensures TagListScan(false, s, "dpf", DpfSeps) == nums + TagListScan(true, tail, "dpf", DpfSeps)
  {
    var j := JoinWith(nums, sep);
    TagParts(tag, sp, j, tail, s);
    assert IsWordChar(s[0]) by {
      FoldAt(tag, 0);
    }
    SpaceBeforeList(sp, nums, sep, tail);
    DigitListOfJoin(nums, sep, DpfSeps, tail);
    TagListAtOf(s, 3 + |sp|, nums, |j|);
    TagScanStep(s, "dpf", DpfSeps, nums, 3 + |sp| + |j|);
  }

  /** The spacing before a list is exactly the `\s*` run. */
  lemma SpaceBeforeList(sp: string, nums: seq<string>, sep: char, tail: string)
    requires AllSpace(sp) && |nums| > 0 && Numbers(nums)
    ensures Run(sp + (JoinWith(nums, sep) + tail), Space) == |sp|
  {
    var j := JoinWith(nums, sep);
    var r2 := j + tail;
    JoinStartsWithDigit(nums, sep);
    forall k | 0 <= k < |sp| ensures InClass(sp[k], Space) {
    }
    assert r2[0] == j[0];
    assert !IsSpace(r2[0]) by { assert IsDigit(j[0]); }
    RunOfBlock(sp, r2, Space);
  }

  /** Written DPF lists read back in written order: the recognised levels of
      one tagged list, followed by those of whatever comes after a space. */
  lemma DpfListRoundTrip(tag: string, sp: string, nums: seq<string>, sep: char, rest: string)
    requires |tag| == 3 && Fold(tag) == "dpf" && AllSpace(sp)
    requires |nums| > 0 && Numbers(nums) && sep in DpfSeps
    ensures ExtractDpfLevels(tag + sp + JoinWith(nums, sep)) == Rankings(nums)
    ensures ExtractDpfLevels(tag + sp + JoinWith(nums, sep) + " " + rest) == Rankings(nums) + ExtractDpfLevels(rest)
  {
    DpfListAlone(tag, sp, nums, sep);
    DpfListThen(tag, sp, nums, sep, rest);
  }

  lemma DpfListAlone(tag: string, sp: string, nums: seq<string>, sep: char)
    requires |tag| == 3 && Fold(tag) == "dpf" && AllSpace(sp)
    requires |nums| > 0 && Numbers(nums) && sep in DpfSeps
    ensures TagListScan(false, tag + sp + JoinWith(nums, sep), "dpf", DpfSeps) == nums
  {
    var j := JoinWith(nums, sep);
    Regroup3(tag, sp, j);
    TagScanOfList(tag, sp, nums, sep, []);
    assert nums + [] == nums;
  }

  lemma DpfListThen(tag: string, sp: string, nums: seq<string>, sep: char, rest: string)
    requires |tag| == 3 && Fold(tag) == "dpf" && AllSpace(sp)
    requires |nums| > 0 && Numbers(nums) && sep in DpfSeps
    ensures ExtractDpfLevels(tag + sp + JoinWith(nums, sep) + " " + rest) == Rankings(nums) + ExtractDpfLevels(rest)
  {
    DpfScanThen(tag, sp, nums, sep, rest);
    RankingsAppend(nums, TagListScan(false, rest, "dpf", DpfSeps));
  }

  lemma DpfScanThen(tag: string, sp: string, nums: seq<string>, sep: char, rest: string)
    requires |tag| == 3 && Fold(tag) == "dpf" && AllSpace(sp)
    requires |nums| > 0 && Numbers(nums) && sep in DpfSeps
    ensures TagListScan(false, tag + sp + JoinWith(nums, sep) + " " + rest, "dpf", DpfSeps)
      == nums + TagListScan(false, rest, "dpf", DpfSeps)
  {
    var j := JoinWith(nums, sep);
    Regroup(tag, sp, j, " ", rest);
    TagScanOfList(tag, sp, nums, sep, " " + rest);
    assert [' '] + rest == " " + rest;
    TagScanAfterNonWord(' ', rest);
  }

  lemma Regroup3(a: string, b: string, c: string)
    ensures a + b + c == a + (b + (c + []))
  {
    assert c + [] == c;
  }

  // ---------------------------------------------------------------------
  // Parenthesised dash lists
  // ---------------------------------------------------------------------

  /** Two or more numbers joined by `-` in parentheses read back in written
      order, followed by the dash lists of whatever comes after. */
  lemma DashListRoundTrip(nums: seq<string>, rest: string)
    requires |nums| >= 2 && Numbers(nums)
    ensures ExtractDashLevels("(" + JoinWith(nums, '-') + ")" + rest) == Rankings(nums) + ExtractDashLevels(rest)
  {
    DashScanOfJoin(nums, rest);
    RankingsAppend(nums, ParenListScan(rest, '-'));
  }

  /** The scan reads the parenthesised list, then carries on behind it. */
  lemma DashScanOfJoin(nums: seq<string>, rest: string)
    requires |nums| >= 2 && Numbers(nums)
    ensures ParenListScan("(" + JoinWith(nums, '-') + ")" + rest, '-') == nums + ParenListScan(rest, '-')
  {
    var s := "(" + JoinWith(nums, '-') + ")" + rest;
    var e := |JoinWith(nums, '-')|;
    ParenOfJoin(nums, rest, s);
    ParenScanHere(s, nums, e + 2, rest);
  }

  /** The parts of `(`, the joined numbers, `)` and the rest. */
  lemma ParenOfJoin(nums: seq<string>, rest: string, s: string)
    requires |nums| >= 2 && Numbers(nums)
    requires s == "(" + JoinWith(nums, '-') + ")" + rest
    ensures ParenListAt(s, '-') == Some((nums, |JoinWith(nums, '-')| + 2))
    ensures s[|JoinWith(nums, '-')| + 2..] == rest
  {
    var j := JoinWith(nums, '-');
    ParenParts(j, rest, s);
    DigitListOfJoin(nums, '-', ['-'], ")" + rest);
    ParenListAtOf(s, nums, |j|);
  }

  lemma ParenParts(j: string, rest: string, s: string)
    requires s == "(" + j + ")" + rest
    ensures |s| > 1 + |j| && s[0] == '(' && s[1 + |j|] == ')'
    ensures s[1..] == j + (")" + rest) && s[|j| + 2..] == rest
  {
    assert s == "(" + (j + (")" + rest));
    SplitAt("(", j + (")" + rest));
    SplitAt(j, ")" + rest);
    assert s[1..][|j|] == s[1 + |j|];
    assert s[1..][|j| + 1..] == s[|j| + 2..];
  }

  /** A match at the start contributes its numbers, and the scan resumes behind it. */
  lemma ParenScanHere(s: string, nums: seq<string>, n: nat, rest: string)
    requires s != [] && ParenListAt(s, '-') == Some((nums, n)) && s[n..] == rest
    ensures ParenListScan(s, '-') == nums + ParenListScan(rest, '-')
  {
  }

  /** One match of the parenthesised list pattern, given its parts. */
  lemma ParenListAtOf(s: string, nums: seq<string>, e: nat)
    requires |s| > 1 + e && s[0] == '(' && Run(s[1..], Digit) > 0
    requires DigitList(s[1..], ['-']) == (nums, e) && |nums| >= 2 && s[1 + e] == ')'
    ensures ParenListAt(s, '-') == Some((nums, e + 2))
  {
  }

  /** Text without an opening parenthesis has no dash list. */
  lemma {:induction false} DashLevelsNeedParen(s: string)
    requires '(' !in s
    ensures ParenListScan(s, '-') == []
    decreases |s|
  {
    if s != [] {
      assert s[0] != '(';
      DashLevelsNeedParen(s[1..]);
    }
  }

  // ---------------------------------------------------------------------
  // Waiting lists
  // ---------------------------------------------------------------------

  /** `venteliste` in any case, wherever it occurs, marks a waiting list. */
  lemma WaitingListWord(a: string, v: string, b: string)
    requires Fold(v) == "venteliste"
    ensures IsWaitingList(a + v + b)
  {
    assert (v + b)[..|v|] == v;
    assert ContainsFolded(v + b, "venteliste");
    ContainsFoldedAfter(a, v + b, "venteliste");
    assert a + v + b == a + (v + b);
  }

  /** `waiting`, any run of whitespace and `list`, in any case, wherever it
      occurs, marks a waiting list. */
  lemma WaitingListSpaced(a: string, x: string, sp: string, y: string, b: string)
    requires Fold(x) == "waiting" && AllSpace(sp) && Fold(y) == "list"
    ensures IsWaitingList(a + x + sp + y + b)
  {
    var t := x + (sp + (y + b));
    assert ContainsSpaced(t, "waiting", "list") by {
      assert (y + b)[..|y|] == y;
      ContainsSpacedHere(x, sp, y + b);
    }
    ContainsSpacedAfter(a, t, "waiting", "list");
    Regroup(a, x, sp, y, b);
  }

  lemma Regroup(a: string, x: string, sp: string, y: string, b: string)
    ensures a + x + sp + y + b == a + (x + (sp + (y + b)))
  {
  }

  /** A match stays a match behind any prefix. */
  lemma {:induction false} ContainsFoldedAfter(a: string, t: string, w: string)
    requires ContainsFolded(t, w)
    ensures ContainsFolded(a + t, w)
    decreases |a|
  {
    if a != [] {
      assert (a + t)[1..] == a[1..] + t;
      ContainsFoldedAfter(a[1..], t, w);
    } else {
      assert a + t == t;
    }
  }

  lemma {:induction false} ContainsSpacedAfter(a: string, t: string, u: string, w: string)
    requires ContainsSpaced(t, u, w)
    ensures ContainsSpaced(a + t, u, w)
    decreases |a|
  {
    if a != [] {
      assert (a + t)[1..] == a[1..] + t;
      ContainsSpacedAfter(a[1..], t, u, w);
    } else {
      assert a + t == t;
    }
  }

  /** `waiting`, spacing and `list` at the very start. */
  lemma ContainsSpacedHere(x: string, sp: string, r: string)
    requires Fold(x) == "waiting" && AllSpace(sp) && FoldPrefix(r, "list")
    ensures ContainsSpaced(x + (sp + r), "waiting", "list")
  {
    var s := x + (sp + r);
    SplitAt(x, sp + r);
    SplitAt(sp, r);
    forall k | 0 <= k < |sp| ensures InClass(sp[k], Space) {
    }
    assert !IsSpace(r[0]) by {
      assert Lower(r[0]) == Fold(r[..4])[0];
    }
    RunOfBlock(sp, r, Space);
  }

  /** No character of `s` folds to `c`. */
  predicate Avoids(s: string, c: char) {
    forall k :: 0 <= k < |s| ==> Lower(s[k]) != c
  }

  lemma {:induction false} AvoidsNotContained(s: string, w: string)
    requires |w| > 0 && Avoids(s, w[0])
    ensures !ContainsFolded(s, w)
    decreases |s|
  {
    if |s| > 0 {
      assert Avoids(s[1..], w[0]) by {
        forall k | 0 <= k < |s[1..]| ensures Lower(s[1..][k]) != w[0] { assert s[1..][k] == s[k + 1]; }
      }
      AvoidsNotContained(s[1..], w);
    }
  }

  lemma {:induction false} AvoidsNotSpaced(s: string, a: string, b: string)
    requires |a| > 0 && Avoids(s, a[0])
    ensures !ContainsSpaced(s, a, b)
    decreases |s|
  {
    if |s| > 0 {
      assert Avoids(s[1..], a[0]) by {
        forall k | 0 <= k < |s[1..]| ensures Lower(s[1..][k]) != a[0] { assert s[1..][k] == s[k + 1]; }
      }
      AvoidsNotSpaced(s[1..], a, b);
    }
  }

  /** A name with no letter `v` or `w`, in either case, is never a waiting list. */
  lemma NotWaitingList(s: string)
    requires Avoids(s, 'v') && Avoids(s, 'w')
    ensures !IsWaitingList(s)
  {
    AvoidsNotContained(s, "venteliste");
    AvoidsNotSpaced(s, "waiting", "list");
  }
}
