/** Character classes of JavaScript regular expressions without the `u` flag,
    ASCII case folding (what `/i` does for all-ASCII patterns), and
    `String.prototype.trim`. */
module Chars {

  predicate IsAsciiUpper(c: char) { 'A' <= c <= 'Z' }

  predicate IsAsciiLower(c: char) { 'a' <= c <= 'z' }

  /** `\d`: ASCII digits only. */
  predicate IsDigit(c: char) { '0' <= c <= '9' }

  /** `\w`, and the notion of word character behind `\b`: [A-Za-z0-9_].
      Letters such as 'ø' or 'å' are not word characters. */
  predicate IsWordChar(c: char) {
    IsAsciiUpper(c) || IsAsciiLower(c) || IsDigit(c) || c == '_'
  }

  /** `\s`: the WhiteSpace and LineTerminator code points of ECMAScript,
      which are also exactly what `trim` strips. */
  predicate IsSpace(c: char) {
    var n := c as int;
    || 0x09 <= n <= 0x0D
    || n == 0x20 || n == 0xA0 || n == 0x1680
    || 0x2000 <= n <= 0x200A
    || n == 0x2028 || n == 0x2029 || n == 0x202F || n == 0x205F
    || n == 0x3000 || n == 0xFEFF
  }

  /** ASCII lower-casing; every other character is left alone. */
  function Lower(c: char): (r: char)
    ensures IsAsciiUpper(c) ==> IsAsciiLower(r)
    ensures !IsAsciiUpper(c) ==> r == c
    ensures IsWordChar(r) <==> IsWordChar(c)
    ensures IsDigit(r) <==> IsDigit(c)
  {
    if IsAsciiUpper(c) then (c as int + 32) as char else c
  }

  /** Case folding of a whole string, character by character. */
  function Fold(s: string): (r: string)
    ensures |r| == |s|
  {
    if s == [] then [] else [Lower(s[0])] + Fold(s[1..])
  }

  lemma {:induction false} FoldAt(s: string, k: nat)
    requires k < |s|
    ensures Fold(s)[k] == Lower(s[k])
  {
    if k > 0 {
      FoldAt(s[1..], k - 1);
    }
  }

  /** Case folding works character by character. */
  lemma FoldAll(s: string)
    ensures forall k :: 0 <= k < |s| ==> Fold(s)[k] == Lower(s[k])
  {
    forall k | 0 <= k < |s| ensures Fold(s)[k] == Lower(s[k]) {
      FoldAt(s, k);
    }
  }

  /** `s` starts with `w` up to ASCII case (`w` is written in lower case). */
  predicate FoldPrefix(s: string, w: string) {
    |w| <= |s| && Fold(s[..|w|]) == w
  }

  predicate AllDigits(s: string) {
    forall k :: 0 <= k < |s| ==> IsDigit(s[k])
  }

  predicate AllWordChars(s: string) {
    forall k :: 0 <= k < |s| ==> IsWordChar(s[k])
  }

  predicate AllSpace(s: string) {
    forall k :: 0 <= k < |s| ==> IsSpace(s[k])
  }

  /** The classes whose maximal runs the scanners measure. */
  datatype CharClass = Word | Digit | Space

  predicate InClass(c: char, cls: CharClass) {
    match cls
    case Word => IsWordChar(c)
    case Digit => IsDigit(c)
    case Space => IsSpace(c)
  }

  /** Length of the longest prefix of `s` made of characters of `cls`, i.e.
      how much a greedy `\w+`, `\d+` or `\s*` consumes. */
  function Run(s: string, cls: CharClass): (r: nat)
    ensures r <= |s|
    ensures r == |s| || !InClass(s[r], cls)
  {
    if s == [] || !InClass(s[0], cls) then 0 else 1 + Run(s[1..], cls)
  }

  /** Every character of the run is of the class. */
  lemma {:induction false} RunClass(s: string, cls: CharClass, k: nat)
    requires k < Run(s, cls)
    ensures InClass(s[k], cls)
  {
    if k > 0 {
      RunClass(s[1..], cls, k - 1);
    }
  }

  lemma RunAll(s: string, cls: CharClass)
    ensures forall k :: 0 <= k < Run(s, cls) ==> InClass(s[k], cls)
  {
    forall k | 0 <= k < Run(s, cls) ensures InClass(s[k], cls) {
      RunClass(s, cls, k);
    }
  }

  /** Length of the longest suffix of `s` made of characters of `cls`. */
  function TrailingRun(s: string, cls: CharClass): (r: nat)
    ensures r <= |s|
    ensures forall k :: |s| - r <= k < |s| ==> InClass(s[k], cls)
    ensures r == |s| || !InClass(s[|s| - r - 1], cls)
  {
    if s == [] || !InClass(s[|s| - 1], cls) then 0
    else 1 + TrailingRun(s[..|s| - 1], cls)
  }

  /** A prefix made only of characters of `cls` is no longer than the run. */
  lemma {:induction false} RunCovers(s: string, cls: CharClass, m: nat)
    requires m <= |s|
    requires forall k :: 0 <= k < m ==> InClass(s[k], cls)
    ensures m <= Run(s, cls)
  {
    if m > 0 {
      assert InClass(s[0], cls);
      RunCovers(s[1..], cls, m - 1);
    }
  }

  /** A prefix of `cls` characters ended by the end of input or by another
      character is exactly the run. */
  lemma RunIs(s: string, cls: CharClass, m: nat)
    requires m <= |s|
    requires forall k :: 0 <= k < m ==> InClass(s[k], cls)
    requires m == |s| || !InClass(s[m], cls)
    ensures Run(s, cls) == m
  {
    RunCovers(s, cls, m);
    if Run(s, cls) > m {
      RunClass(s, cls, m);
    }
  }

  /** `String.prototype.trim`: strip leading and trailing `\s` characters. */
  function Trim(s: string): (r: string)
    ensures |r| <= |s|
    ensures r == [] || (!IsSpace(r[0]) && !IsSpace(r[|r| - 1]))
    ensures exists i :: 0 <= i <= |s| - |r| && s[i..i + |r|] == r
                        && AllSpace(s[..i]) && AllSpace(s[i + |r|..])
  {
    var lead := Run(s, Space);
    var t := s[lead..];
    var trail := TrailingRun(t, Space);
    var r := t[..|t| - trail];
    assert s[lead..lead + |r|] == r;
    assert AllSpace(s[..lead]) by {
      forall k | 0 <= k < lead ensures IsSpace(s[..lead][k]) {
        RunClass(s, Space, k);
      }
    }
    assert AllSpace(s[lead + |r|..]) by {
      forall k | lead + |r| <= k < |s| ensures IsSpace(s[k]) {
        assert s[k] == t[k - lead];
        assert InClass(t[k - lead], Space);
      }
    }
    assert r != [] ==> !IsSpace(r[0]) by {
      if r != [] {
        assert r[0] == s[lead];
        assert lead < |s| && !InClass(s[lead], Space);
      }
    }
    r
  }

  /** A string with no leading or trailing `\s` is its own trim. */
  lemma TrimNoop(s: string)
    requires s == [] || (!IsSpace(s[0]) && !IsSpace(s[|s| - 1]))
    ensures Trim(s) == s
  {
    var r := Trim(s);
    var i :| 0 <= i <= |s| - |r| && s[i..i + |r|] == r
             && AllSpace(s[..i]) && AllSpace(s[i + |r|..]);
  }

  /** Trimming twice is trimming once. */
  lemma TrimIdempotent(s: string)
    ensures Trim(Trim(s)) == Trim(s)
  {
    TrimNoop(Trim(s));
  }
}
