/** Sorting as `Array.prototype.sort` does it: a stable sort by a comparator,
    here given as a "sorts no later than" relation, and the orders the
    program sorts by — JavaScript's default string order (UTF-16 code
    units), a locale comparison taken as a parameter, and the numeric value
    of the digits of a string. */
module Sorting {
  import opened Base

  // ---------------------------------------------------------------------
  // Stable insertion sort
  // ---------------------------------------------------------------------

  /** `le` is total and transitive: what a consistent comparator gives. */
  ghost predicate TotalPreorder<T(!new)>(le: (T, T) -> bool) {
    && (forall a, b :: le(a, b) || le(b, a))
    && (forall a, b, c :: le(a, b) && le(b, c) ==> le(a, c))
  }

  predicate SortedBy<T>(le: (T, T) -> bool, s: seq<T>) {
    forall i, j :: 0 <= i < j < |s| ==> le(s[i], s[j])
  }

  /** `x` placed before the first element it sorts no later than. */
  function Insert<T>(le: (T, T) -> bool, x: T, s: seq<T>): (r: seq<T>)
    ensures |r| == |s| + 1
    ensures multiset(r) == multiset(s) + multiset{x}
  {
    if s == [] then [x]
    else if le(x, s[0]) then [x] + s
    else
      var r := [s[0]] + Insert(le, x, s[1..]);
      assert s == [s[0]] + s[1..];
      r
  }

  /** Each element is inserted into the sorted rest, ahead of the equal
      elements that follow it in `s`, so equal elements keep their order. */
  function Sort<T>(le: (T, T) -> bool, s: seq<T>): (r: seq<T>)
    ensures multiset(r) == multiset(s)
    ensures |r| == |s|
  {
    if s == [] then []
    else
      assert s == [s[0]] + s[1..];
      Insert(le, s[0], Sort(le, s[1..]))
  }

  /** An element that sorts no later than every element of a sorted
      sequence can head it. */
  lemma ConsSorted<T(!new)>(le: (T, T) -> bool, a: T, s: seq<T>)
    requires SortedBy(le, s)
    requires forall i :: 0 <= i < |s| ==> le(a, s[i])
    ensures SortedBy(le, [a] + s)
  {
    var r := [a] + s;
    forall i, j | 0 <= i < j < |r| ensures le(r[i], r[j]) {
      if i == 0 {
        assert r[j] == s[j - 1];
      } else {
        assert r[i] == s[i - 1] && r[j] == s[j - 1];
      }
    }
  }

  lemma {:induction false} InsertSorted<T(!new)>(le: (T, T) -> bool, x: T, s: seq<T>)
    requires TotalPreorder(le) && SortedBy(le, s)
    ensures SortedBy(le, Insert(le, x, s))
    decreases |s|
  {
    if s != [] && !le(x, s[0]) {
      var t := s[1..];
      assert SortedBy(le, t) by {
        forall i, j | 0 <= i < j < |t| ensures le(t[i], t[j]) {
          assert t[i] == s[i + 1] && t[j] == s[j + 1];
        }
      }
      InsertSorted(le, x, t);
      var it := Insert(le, x, t);
      assert le(s[0], x);
      forall i | 0 <= i < |it| ensures le(s[0], it[i]) {
        var e := it[i];
        assert e in multiset(it);
        if e != x {
          assert e in multiset(t);
          var k :| 0 <= k < |t| && t[k] == e;
          assert s[k + 1] == e;
        }
      }
      ConsSorted(le, s[0], it);
    } else if s != [] {
      forall i | 0 <= i < |s| ensures le(x, s[i]) {
        if i > 0 {
          assert le(s[0], s[i]);
        }
      }
      ConsSorted(le, x, s);
    }
  }

  /** With a consistent comparator the result is ordered. */
  lemma {:induction false} SortSorted<T(!new)>(le: (T, T) -> bool, s: seq<T>)
    requires TotalPreorder(le)
    ensures SortedBy(le, Sort(le, s))
    decreases |s|
  {
    if s != [] {
      SortSorted(le, s[1..]);
      InsertSorted(le, s[0], Sort(le, s[1..]));
    }
  }

  /** Reordering keeps elements distinct. */
  lemma PermutationDistinct<T>(xs: seq<T>, ys: seq<T>)
    requires multiset(ys) == multiset(xs) && NoDuplicates(xs)
    ensures NoDuplicates(ys)
  {
    forall i, j | 0 <= i < j < |ys| ensures ys[i] != ys[j] {
      if ys[i] == ys[j] {
        Twice(ys, i, j);
        OnceEach(xs, ys[i]);
      }
    }
  }

  /** The distinct elements, sorted: `[...new Set(xs)].sort(...)`. */
  function SortUnique<T(==,!new)>(le: (T, T) -> bool, xs: seq<T>): (r: seq<T>)
    ensures forall x :: x in r <==> x in xs
  {
    var d := Dedup(xs);
    var r := Sort(le, d);
    assert forall x :: x in r <==> x in multiset(d);
    r
  }

  /** Each element once, in order. */
  lemma SortUniqueSpec<T(!new)>(le: (T, T) -> bool, xs: seq<T>)
    requires TotalPreorder(le)
    ensures NoDuplicates(SortUnique(le, xs))
    ensures SortedBy(le, SortUnique(le, xs))
  {
    PermutationDistinct(Dedup(xs), Sort(le, Dedup(xs)));
    SortSorted(le, Dedup(xs));
  }

  // ---------------------------------------------------------------------
  // Comparators
  // ---------------------------------------------------------------------

  /** A three-way comparator in the manner of `localeCompare`: the sign of
      `cmp(a, b)` is reversed by swapping the arguments, and "no later than"
      is transitive. */
  ghost predicate IsComparator<T(!new)>(cmp: (T, T) -> int) {
    && (forall a, b :: cmp(a, b) < 0 <==> cmp(b, a) > 0)
    && (forall a, b, c :: cmp(a, b) <= 0 && cmp(b, c) <= 0 ==> cmp(a, c) <= 0)
  }

  /** Sorting with `(a, b) => cmp(a, b)` treats a non-positive result as
      "no later than". */
  function NoLater<T>(cmp: (T, T) -> int): (T, T) -> bool {
    (a, b) => cmp(a, b) <= 0
  }

  lemma ComparatorPreorder<T(!new)>(cmp: (T, T) -> int)
    requires IsComparator(cmp)
    ensures TotalPreorder(NoLater(cmp))
  {
    forall a, b ensures NoLater(cmp)(a, b) || NoLater(cmp)(b, a) {
      if cmp(a, b) > 0 {
        assert cmp(b, a) < 0;
      }
    }
  }

  /** Equal under a comparator is transitive, and a strict step followed
      by an equal one stays strict. */
  lemma ComparatorEqual<T(!new)>(cmp: (T, T) -> int, a: T, b: T, c: T)
    requires IsComparator(cmp)
    ensures cmp(a, b) == 0 && cmp(b, c) == 0 ==> cmp(a, c) == 0
    ensures cmp(a, b) < 0 && cmp(b, c) <= 0 ==> cmp(a, c) < 0
    ensures cmp(a, b) <= 0 && cmp(b, c) < 0 ==> cmp(a, c) < 0
  {
    if cmp(a, b) <= 0 && cmp(b, c) <= 0 && cmp(a, c) == 0 {
      assert cmp(c, a) == 0 by {
        assert !(cmp(c, a) < 0);
        assert !(cmp(c, a) > 0);
      }
      assert cmp(c, b) <= 0;
      assert cmp(b, a) <= 0;
      assert cmp(a, b) == 0 by {
        assert !(cmp(b, a) > 0);
      }
      assert cmp(b, c) == 0 by {
        assert !(cmp(c, b) > 0);
      }
    }
  }

  // ---------------------------------------------------------------------
  // JavaScript's default string order
  // ---------------------------------------------------------------------

  /** The UTF-16 code units of a character: one below U+10000, else a
      surrogate pair. */
  function CodeUnits(c: char): (r: seq<int>)
    ensures 1 <= |r| <= 2
    ensures forall k :: 0 <= k < |r| ==> 0 <= r[k] < 0x1_0000
  {
    var n := c as int;
    if n < 0x1_0000 then [n]
    else [0xD800 + (n - 0x1_0000) / 0x400, 0xDC00 + (n - 0x1_0000) % 0x400]
  }

  /** The UTF-16 encoding of a string: what JavaScript compares. */
  function Utf16(s: string): seq<int> {
    if s == [] then [] else CodeUnits(s[0]) + Utf16(s[1..])
  }

  /** Lexicographic order of code-unit sequences; a prefix comes first. */
  predicate LexLe(x: seq<int>, y: seq<int>) {
    x == [] || (y != [] && (x[0] < y[0] || (x[0] == y[0] && LexLe(x[1..], y[1..]))))
  }

  lemma {:induction false} LexTotal(x: seq<int>, y: seq<int>)
    ensures LexLe(x, y) || LexLe(y, x)
  {
    if x != [] && y != [] && x[0] == y[0] {
      LexTotal(x[1..], y[1..]);
    }
  }

  lemma {:induction false} LexTrans(x: seq<int>, y: seq<int>, z: seq<int>)
    requires LexLe(x, y) && LexLe(y, z)
    ensures LexLe(x, z)
  {
    if x != [] && x[0] == y[0] && y[0] == z[0] {
      LexTrans(x[1..], y[1..], z[1..]);
    }
  }

  /** The default `sort()` order of strings. */
  predicate CodeUnitLe(a: string, b: string) {
    LexLe(Utf16(a), Utf16(b))
  }

  function CodeUnitOrder(): (string, string) -> bool {
    (a, b) => CodeUnitLe(a, b)
  }

  lemma CodeUnitPreorder()
    ensures TotalPreorder(CodeUnitOrder())
  {
    forall a, b ensures CodeUnitLe(a, b) || CodeUnitLe(b, a) {
      LexTotal(Utf16(a), Utf16(b));
    }
    forall a, b, c | CodeUnitLe(a, b) && CodeUnitLe(b, c) ensures CodeUnitLe(a, c) {
      LexTrans(Utf16(a), Utf16(b), Utf16(c));
    }
  }

  /** Below U+10000 the code-unit order is the order of the characters. */
  lemma {:induction false} CodeUnitLeBmp(a: string, b: string)
    requires forall k :: 0 <= k < |a| ==> (a[k] as int) < 0x1_0000
    requires forall k :: 0 <= k < |b| ==> (b[k] as int) < 0x1_0000
    ensures CodeUnitLe(a, b) <==> CharLe(a, b)
  {
    if a != [] && b != [] {
      assert Utf16(a) == [a[0] as int] + Utf16(a[1..]);
      assert Utf16(b) == [b[0] as int] + Utf16(b[1..]);
      assert (Utf16(a))[1..] == Utf16(a[1..]);
      assert (Utf16(b))[1..] == Utf16(b[1..]);
      CodeUnitLeBmp(a[1..], b[1..]);
    } else if a != [] {
      assert Utf16(a) == [a[0] as int] + Utf16(a[1..]);
    }
  }

  /** Lexicographic order of the characters themselves. */
  predicate CharLe(a: string, b: string) {
    a == [] || (b != [] && (a[0] < b[0] || (a[0] == b[0] && CharLe(a[1..], b[1..]))))
  }

  // ---------------------------------------------------------------------
  // parseInt(s.replace(/\D/g, ''), 10)
  // ---------------------------------------------------------------------

  /** The ASCII digits of `s`, in order. */
  function DigitsOf(s: string): (r: string)
    ensures |r| <= |s|
    ensures forall k :: 0 <= k < |r| ==> '0' <= r[k] <= '9'
  {
    if s == [] then []
    else if '0' <= s[0] <= '9' then [s[0]] + DigitsOf(s[1..])
    else DigitsOf(s[1..])
  }

  /** The decimal value of a string of digits, leading zeros allowed. */
  function DecimalValue(d: string): (r: nat)
    requires forall k :: 0 <= k < |d| ==> '0' <= d[k] <= '9'
  {
    if d == [] then 0
    else DecimalValue(d[..|d| - 1]) * 10 + (d[|d| - 1] as int - '0' as int)
  }

  /** The number a ranking string sorts by. */
  function NumericKey(s: string): nat {
    DecimalValue(DigitsOf(s))
  }

  function NumericOrder(): (string, string) -> bool {
    (a, b) => NumericKey(a) <= NumericKey(b)
  }

  lemma NumericPreorder()
    ensures TotalPreorder(NumericOrder())
  {
  }

  /** `DPF` followed by a number sorts by that number. */
  lemma {:induction false} NumericKeyOfTag(n: string)
    requires forall k :: 0 <= k < |n| ==> '0' <= n[k] <= '9'
    ensures NumericKey("DPF" + n) == DecimalValue(n)
  {
    var s := "DPF" + n;
    assert s[0] == 'D' && s[1..][0] == 'P' && s[1..][1..][0] == 'F';
    assert s[1..][1..][1..] == n;
    assert DigitsOf(s) == DigitsOf(s[1..]) == DigitsOf(s[1..][1..]) == DigitsOf(n);
    DigitsOfDigits(n);
  }

  lemma {:induction false} DigitsOfDigits(n: string)
    requires forall k :: 0 <= k < |n| ==> '0' <= n[k] <= '9'
    ensures DigitsOf(n) == n
  {
    if n != [] {
      DigitsOfDigits(n[1..]);
      assert n == [n[0]] + n[1..];
    }
  }
}
