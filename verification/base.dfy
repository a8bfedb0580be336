/** Small shared vocabulary: an optional value standing for JavaScript's
    `null`/`undefined`, and sequence helpers used by several modules. */
module Base {

  /** `None` models both `null` and `undefined`. */
  datatype Option<+T> = None | Some(value: T) {
    function GetOr(default: T): T {
      match this
      case Some(v) => v
      case None => default
    }
  }

  /** True when no element occurs twice. */
  predicate NoDuplicates<T(==)>(xs: seq<T>) {
    forall i, j :: 0 <= i < j < |xs| ==> xs[i] != xs[j]
  }

  /** The elements of `xs` in order of first occurrence, each once: what
      iterating a JavaScript `Set` built by successive `add`s yields. */
  function Dedup<T(==)>(xs: seq<T>): (r: seq<T>)
    ensures NoDuplicates(r)
    ensures forall i :: 0 <= i < |r| ==> r[i] in xs
    ensures forall i :: 0 <= i < |xs| ==> xs[i] in r
    ensures |r| <= |xs|
  {
    DedupInto([], xs)
  }

  /** `seen` followed by the elements of `xs` that are not already present. */
  function DedupInto<T(==)>(seen: seq<T>, xs: seq<T>): (r: seq<T>)
    requires NoDuplicates(seen)
    ensures NoDuplicates(r)
    ensures forall i :: 0 <= i < |r| ==> r[i] in seen || r[i] in xs
    ensures forall i :: 0 <= i < |xs| ==> xs[i] in r
    ensures |seen| <= |r| <= |seen| + |xs|
    ensures r[..|seen|] == seen
    decreases |xs|
  {
    if xs == [] then seen
    else if xs[0] in seen then DedupInto(seen, xs[1..])
    else
      var r := DedupInto(seen + [xs[0]], xs[1..]);
      assert r[..|seen| + 1][|seen|] == xs[0];
      r
  }

  /** Without duplicates, every element occurs at most once. */
  lemma {:induction false} OnceEach<T>(xs: seq<T>, x: T)
    requires NoDuplicates(xs)
    ensures multiset(xs)[x] <= 1
  {
    if xs != [] {
      var t := xs[1..];
      assert NoDuplicates(t) by {
        forall i, j | 0 <= i < j < |t| ensures t[i] != t[j] {
          assert t[i] == xs[i + 1] && t[j] == xs[j + 1];
        }
      }
      OnceEach(t, x);
      assert xs == [xs[0]] + t;
      assert xs[0] !in t;
    }
  }

  /** An element at two positions occurs at least twice. */
  lemma Twice<T>(xs: seq<T>, i: nat, j: nat)
    requires i < j < |xs| && xs[i] == xs[j]
    ensures multiset(xs)[xs[i]] >= 2
  {
    assert xs == xs[..i] + [xs[i]] + xs[i + 1..j] + [xs[j]] + xs[j + 1..];
  }

  /** Adding two runs one after the other is adding their concatenation. */
  lemma {:induction false} DedupIntoAppend<T>(seen: seq<T>, a: seq<T>, b: seq<T>)
    requires NoDuplicates(seen)
    ensures DedupInto(DedupInto(seen, a), b) == DedupInto(seen, a + b)
    decreases |a|
  {
    if a == [] {
      assert a + b == b;
    } else {
      assert (a + b)[0] == a[0] && (a + b)[1..] == a[1..] + b;
      if a[0] in seen {
        DedupIntoAppend(seen, a[1..], b);
      } else {
        DedupIntoAppend(seen + [a[0]], a[1..], b);
      }
    }
  }

  /** Adding one element, if new, keeps a list free of duplicates. */
  lemma AddNewDistinct<T>(seen: seq<T>, x: T)
    requires NoDuplicates(seen)
    ensures NoDuplicates(if x in seen then seen else seen + [x])
  {
  }

  /** One step of `DedupInto`, as a single equation. */
  lemma DedupIntoStep<T>(seen: seq<T>, x: T, rest: seq<T>)
    requires NoDuplicates(seen)
    ensures NoDuplicates(if x in seen then seen else seen + [x])
    ensures DedupInto(seen, [x] + rest) == DedupInto(if x in seen then seen else seen + [x], rest)
  {
    assert ([x] + rest)[0] == x && ([x] + rest)[1..] == rest;
  }
}
