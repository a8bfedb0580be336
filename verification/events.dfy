/** Classification of the classes of an event and of a whole corpus: every
    class name becomes counted series, series with the same name are merged
    with a null-aware sum of their player counts, and the result is sorted by
    category and then by ranking number. */
module Events {
  import opened Base
  import opened Sorting
  import opened Classify

  /** A series together with the number of players signed up for it. */
  datatype CountedSeries = CountedSeries(name: string, ranking: Option<string>, category: string, playerCount: Option<int>)

  /** A tournament class as listed for an event. `playerCountError` is the
      message the fetcher attaches when looking up the player count failed; it
      stands for every field beyond id, name and player count. */
  datatype ClassEntry = ClassEntry(id: int, name: string, playerCount: Option<int>, playerCountError: Option<string>)

  /** A class as it is kept: projected onto its id, name and player count. */
  function Projected(c: ClassEntry): ClassEntry {
    ClassEntry(c.id, c.name, c.playerCount, None)
  }

  /** An event: `info` stands for every field the classifier copies
      unchanged; the other fields are absent (`None`) when missing or not an
      array. */
  datatype Event<I> = Event(
    info: I,
    classes: Option<seq<ClassEntry>>,
    series: Option<seq<CountedSeries>>,
    unknownSeries: Option<seq<string>>)

  // ---------------------------------------------------------------------
  // One class
  // ---------------------------------------------------------------------

  /** What normalizing one class gives: the class kept (absent for a
      waiting list), its counted series, and whether it is unrecognised. */
  datatype ClassResult = ClassResult(kept: Option<ClassEntry>, series: seq<CountedSeries>, isUnknown: bool)

  function WithCount(s: Series, c: Option<int>): CountedSeries {
    CountedSeries(s.name, s.ranking, s.category, c)
  }

  /** Waiting lists are dropped without being unknown; other classes are kept,
      projected onto id, name and player count (any other field is dropped),
      and carry one counted series per classified series, each with the
      class's player count. */
  function NormalizeClass(c: ClassEntry): (r: ClassResult)
    ensures r.kept.None? <==> IsWaitingList(c.name)
    ensures r.kept.None? ==> r.series == [] && !r.isUnknown
    ensures r.kept.Some? ==> r.kept.value == ClassEntry(c.id, c.name, c.playerCount, None)
    ensures r.kept.Some? ==> (r.isUnknown <==> r.series == [])
    ensures |r.series| == |NormalizeClassName(c.name).series|
    ensures forall i :: 0 <= i < |r.series| ==>
      r.series[i] == WithCount(NormalizeClassName(c.name).series[i], c.playerCount)
  {
    var n := NormalizeClassName(c.name);
    if n.isWaitingList then ClassResult(None, [], false)
    else
      var counted := seq(|n.series|, i requires 0 <= i < |n.series| => WithCount(n.series[i], c.playerCount));
      ClassResult(Some(Projected(c)), counted, |n.series| == 0)
  }

  // ---------------------------------------------------------------------
  // Null-aware sum of player counts
  // ---------------------------------------------------------------------

  /** Adding a contribution: an absent one changes nothing, and a present
      one replaces an absent total. */
  function AddCounts(total: Option<int>, c: Option<int>): Option<int> {
    if c.None? then total
    else if total.None? then c
    else Some(total.value + c.value)
  }

  /** The running total after adding each contribution in turn. */
  function SumFrom(total: Option<int>, cs: seq<Option<int>>): Option<int>
    decreases |cs|
  {
    if cs == [] then total else SumFrom(AddCounts(total, cs[0]), cs[1..])
  }

  predicate AllAbsent(cs: seq<Option<int>>) {
    forall i :: 0 <= i < |cs| ==> cs[i].None?
  }

  /** The sum of the present contributions. */
  function Total(cs: seq<Option<int>>): int {
    if cs == [] then 0 else cs[0].GetOr(0) + Total(cs[1..])
  }

  /** The merged count is absent when every contribution is absent, and
      otherwise the sum of the present ones. */
  lemma {:induction false} SumFromIsTotal(total: Option<int>, cs: seq<Option<int>>)
    ensures SumFrom(total, cs) == if total.None? && AllAbsent(cs) then None else Some(total.GetOr(0) + Total(cs))
    decreases |cs|
  {
    if cs != [] {
      SumFromIsTotal(AddCounts(total, cs[0]), cs[1..]);
      assert AllAbsent(cs) <==> cs[0].None? && AllAbsent(cs[1..]) by {
        if cs[0].None? && AllAbsent(cs[1..]) {
          forall i | 0 <= i < |cs| ensures cs[i].None? {
            if i > 0 { assert cs[i] == cs[1..][i - 1]; }
          }
        }
      }
    }
  }

  // ---------------------------------------------------------------------
  // Merging by series name
  // ---------------------------------------------------------------------

  /** The names of counted series, in order. `Aggregate.SeriesNames` is the
      same projection over the fetched `SeriesRef` records: the two record
      types are unrelated, so each module keeps its own. */
  function Names(xs: seq<CountedSeries>): (r: seq<string>)
    ensures |r| == |xs|
    ensures forall i :: 0 <= i < |xs| ==> r[i] == xs[i].name
  {
    if xs == [] then [] else [xs[0].name] + Names(xs[1..])
  }

  /** The first series named `k`. */
  function FindByName(xs: seq<CountedSeries>, k: string): (r: Option<CountedSeries>)
    ensures r.Some? ==> r.value.name == k && r.value in xs
    ensures r.None? <==> k !in Names(xs)
  {
    if xs == [] then None
    else if xs[0].name == k then Some(xs[0])
    else FindByName(xs[1..], k)
  }

  /** An entry that absorbs another contribution to its name: the entry
      keeps its fields, and only the count grows. */
  function Absorbed(e: Option<CountedSeries>, s: CountedSeries): CountedSeries {
    if e.None? then s else e.value.(playerCount := AddCounts(e.value.playerCount, s.playerCount))
  }

  /** One step of the name-keyed map: a new name is appended with its count,
      a known one absorbs the count in place. */
  function AddTo(acc: seq<CountedSeries>, s: CountedSeries): (r: seq<CountedSeries>)
    decreases |acc|
  {
    if acc == [] then [s]
    else if acc[0].name == s.name then [Absorbed(Some(acc[0]), s)] + acc[1..]
    else [acc[0]] + AddTo(acc[1..], s)
  }

  function MergeInto(acc: seq<CountedSeries>, xs: seq<CountedSeries>): seq<CountedSeries>
    decreases |xs|
  {
    if xs == [] then acc else MergeInto(AddTo(acc, xs[0]), xs[1..])
  }

  function MergeAll(xs: seq<CountedSeries>): seq<CountedSeries> {
    MergeInto([], xs)
  }

  lemma {:induction false} AddToNames(acc: seq<CountedSeries>, s: CountedSeries)
    ensures Names(AddTo(acc, s)) == if s.name in Names(acc) then Names(acc) else Names(acc) + [s.name]
    decreases |acc|
  {
    if acc != [] {
      assert Names(acc) == [acc[0].name] + Names(acc[1..]);
      if acc[0].name != s.name {
        AddToNames(acc[1..], s);
      }
    }
  }

  lemma {:induction false} AddToFind(acc: seq<CountedSeries>, s: CountedSeries, k: string)
    ensures FindByName(AddTo(acc, s), k) == if k == s.name then Some(Absorbed(FindByName(acc, k), s)) else FindByName(acc, k)
    decreases |acc|
  {
    if acc != [] && acc[0].name != s.name {
      AddToFind(acc[1..], s, k);
    }
  }

  /** The names of a merge are those already present followed by the new
      names in order of first occurrence, each once. */
  lemma {:induction false} MergeIntoNames(acc: seq<CountedSeries>, xs: seq<CountedSeries>)
    requires NoDuplicates(Names(acc))
    ensures Names(MergeInto(acc, xs)) == DedupInto(Names(acc), Names(xs))
    decreases |xs|
  {
    if xs != [] {
      AddToNames(acc, xs[0]);
      assert Names(xs)[1..] == Names(xs[1..]);
      MergeIntoNames(AddTo(acc, xs[0]), xs[1..]);
    }
  }

  /** The series of `xs` named `k`, in order. */
  function WithName(xs: seq<CountedSeries>, k: string): (r: seq<CountedSeries>)
    ensures forall i :: 0 <= i < |r| ==> r[i].name == k
  {
    if xs == [] then []
    else if xs[0].name == k then [xs[0]] + WithName(xs[1..], k)
    else WithName(xs[1..], k)
  }

  function Counts(xs: seq<CountedSeries>): (r: seq<Option<int>>)
    ensures |r| == |xs|
    ensures forall i :: 0 <= i < |xs| ==> r[i] == xs[i].playerCount
  {
    if xs == [] then [] else [xs[0].playerCount] + Counts(xs[1..])
  }

  /** Absorbing a run of contributions, one after the other. */
  function AbsorbAll(e: Option<CountedSeries>, ys: seq<CountedSeries>): Option<CountedSeries>
    decreases |ys|
  {
    if ys == [] then e else AbsorbAll(Some(Absorbed(e, ys[0])), ys[1..])
  }

  lemma {:induction false} MergeIntoFind(acc: seq<CountedSeries>, xs: seq<CountedSeries>, k: string)
    ensures FindByName(MergeInto(acc, xs), k) == AbsorbAll(FindByName(acc, k), WithName(xs, k))
    decreases |xs|
  {
    if xs != [] {
      AddToFind(acc, xs[0], k);
      MergeIntoFind(AddTo(acc, xs[0]), xs[1..], k);
    }
  }

  /** Absorbing into an entry keeps that entry's fields and sums the counts. */
  lemma {:induction false} AbsorbAllSome(e: CountedSeries, ys: seq<CountedSeries>)
    ensures AbsorbAll(Some(e), ys) == Some(e.(playerCount := SumFrom(e.playerCount, Counts(ys))))
    decreases |ys|
  {
    if ys != [] {
      AbsorbAllSome(Absorbed(Some(e), ys[0]), ys[1..]);
      assert Counts(ys)[1..] == Counts(ys[1..]);
    }
  }

  /** What the merged map holds for a name: nothing when no series has it,
      otherwise the first such series, with the null-aware sum of the counts
      of all of them. */
  lemma MergeAllFind(xs: seq<CountedSeries>, k: string)
    ensures var ys := WithName(xs, k);
      FindByName(MergeAll(xs), k) == if ys == [] then None else Some(ys[0].(playerCount := SumCounts(Counts(ys))))
  {
    var ys := WithName(xs, k);
    MergeIntoFind([], xs, k);
    if ys != [] {
      AbsorbAllSome(ys[0], ys[1..]);
      assert Counts(ys) == [ys[0].playerCount] + Counts(ys[1..]);
      assert SumFrom(None, Counts(ys)) == SumFrom(ys[0].playerCount, Counts(ys[1..]));
      assert ys[0].(playerCount := ys[0].playerCount) == ys[0];
    }
  }

  /** The null-aware sum: absent when all contributions are, else the sum of
      the present ones. */
  function SumCounts(cs: seq<Option<int>>): (r: Option<int>)
    ensures r == if AllAbsent(cs) then None else Some(Total(cs))
  {
    SumFromIsTotal(None, cs);
    SumFrom(None, cs)
  }

  /** Each name once, in order of first occurrence. */
  lemma MergeAllNames(xs: seq<CountedSeries>)
    ensures Names(MergeAll(xs)) == Dedup(Names(xs))
    ensures NoDuplicates(Names(MergeAll(xs)))
  {
    MergeIntoNames([], xs);
  }

  lemma {:induction false} MergeIntoAppend(acc: seq<CountedSeries>, a: seq<CountedSeries>, b: seq<CountedSeries>)
    ensures MergeInto(MergeInto(acc, a), b) == MergeInto(acc, a + b)
    decreases |a|
  {
    if a == [] {
      assert a + b == b;
    } else {
      assert (a + b)[0] == a[0] && (a + b)[1..] == a[1..] + b;
      MergeIntoAppend(AddTo(acc, a[0]), a[1..], b);
    }
  }

  // ---------------------------------------------------------------------
  // Sorting series
  // ---------------------------------------------------------------------

  /** The number a ranking sorts by; an absent or empty ranking counts as 0. */
  function RankKey(r: Option<string>): nat {
    if r.None? || r.value == "" then 0 else NumericKey(r.value)
  }

  /** Category first, by the locale comparison `loc`, then ranking number. */
  function SeriesCmp(loc: (string, string) -> int): (CountedSeries, CountedSeries) -> int {
    (a: CountedSeries, b: CountedSeries) =>
      var c := loc(a.category, b.category);
      if c != 0 then c else RankKey(a.ranking) - RankKey(b.ranking)
  }

  lemma SeriesCmpComparator(loc: (string, string) -> int)
    requires IsComparator(loc)
    ensures IsComparator(SeriesCmp(loc))
  {
    var cmp := SeriesCmp(loc);
    forall a, b ensures cmp(a, b) < 0 <==> cmp(b, a) > 0 {
      assert loc(a.category, b.category) < 0 <==> loc(b.category, a.category) > 0;
      assert loc(b.category, a.category) < 0 <==> loc(a.category, b.category) > 0;
    }
    forall a, b, c | cmp(a, b) <= 0 && cmp(b, c) <= 0 ensures cmp(a, c) <= 0 {
      ComparatorEqual(loc, a.category, b.category, c.category);
    }
  }

  function SortSeries(loc: (string, string) -> int, xs: seq<CountedSeries>): (r: seq<CountedSeries>)
    ensures multiset(r) == multiset(xs)
  {
    Sort(NoLater(SeriesCmp(loc)), xs)
  }

  /** With a consistent locale comparison the series come out by category,
      and within a category by ranking number. */
  lemma SortSeriesOrdered(loc: (string, string) -> int, xs: seq<CountedSeries>)
    requires IsComparator(loc)
    ensures var r := SortSeries(loc, xs);
      forall i, j :: 0 <= i < j < |r| ==>
        loc(r[i].category, r[j].category) < 0
        || (loc(r[i].category, r[j].category) == 0 && RankKey(r[i].ranking) <= RankKey(r[j].ranking))
  {
    SeriesCmpComparator(loc);
    ComparatorPreorder(SeriesCmp(loc));
    SortSorted(NoLater(SeriesCmp(loc)), xs);
  }

  // ---------------------------------------------------------------------
  // One event
  // ---------------------------------------------------------------------

  datatype Tally = Tally(classes: seq<ClassEntry>, merged: seq<CountedSeries>, unknown: seq<string>)

  /** One iteration over the classes of an event, given how one class is
      normalized. */
  function ClassStep(norm: ClassEntry -> ClassResult, t: Tally, c: ClassEntry): Tally {
    var r := norm(c);
    if r.kept.None? then t
    else if r.isUnknown then Tally(t.classes + [r.kept.value], t.merged, t.unknown + [r.kept.value.name])
    else Tally(t.classes + [r.kept.value], MergeInto(t.merged, r.series), t.unknown)
  }

  function ClassFold(norm: ClassEntry -> ClassResult, t: Tally, cs: seq<ClassEntry>): Tally
    decreases |cs|
  {
    if cs == [] then t else ClassFold(norm, ClassStep(norm, t, cs[0]), cs[1..])
  }

  function NormalizeEventClasses<I>(loc: (string, string) -> int, e: Event<I>): (r: Event<I>)
    ensures r.info == e.info
    ensures r.classes.Some? && r.series.Some? && r.unknownSeries.Some?
    ensures e.classes.None? ==> r.classes == Some([]) && r.series == Some([]) && r.unknownSeries == Some([])
  {
    if e.classes.None? then Event(e.info, Some([]), Some([]), Some([]))
    else
      var t := ClassFold(NormalizeClass, Tally([], [], []), e.classes.value);
      Event(e.info, Some(t.classes), Some(SortSeries(loc, t.merged)), Some(t.unknown))
  }

  // What the fold collects, for any way of normalizing one class.

  function KeptBy(norm: ClassEntry -> ClassResult, cs: seq<ClassEntry>): seq<ClassEntry> {
    if cs == [] then []
    else if norm(cs[0]).kept.None? then KeptBy(norm, cs[1..])
    else [norm(cs[0]).kept.value] + KeptBy(norm, cs[1..])
  }

  function UnknownBy(norm: ClassEntry -> ClassResult, cs: seq<ClassEntry>): seq<string> {
    if cs == [] then []
    else if norm(cs[0]).kept.Some? && norm(cs[0]).isUnknown then [norm(cs[0]).kept.value.name] + UnknownBy(norm, cs[1..])
    else UnknownBy(norm, cs[1..])
  }

  function EmittedBy(norm: ClassEntry -> ClassResult, cs: seq<ClassEntry>): seq<CountedSeries> {
    if cs == [] then []
    else if norm(cs[0]).kept.Some? && !norm(cs[0]).isUnknown then norm(cs[0]).series + EmittedBy(norm, cs[1..])
    else EmittedBy(norm, cs[1..])
  }

  lemma ClassFoldSpec(norm: ClassEntry -> ClassResult, t: Tally, cs: seq<ClassEntry>)
    ensures ClassFold(norm, t, cs).classes == t.classes + KeptBy(norm, cs)
    ensures ClassFold(norm, t, cs).unknown == t.unknown + UnknownBy(norm, cs)
    ensures ClassFold(norm, t, cs).merged == MergeInto(t.merged, EmittedBy(norm, cs))
  {
    ClassFoldClasses(norm, t, cs);
    ClassFoldUnknown(norm, t, cs);
    ClassFoldMerged(norm, t, cs);
  }

  lemma {:induction false} ClassFoldClasses(norm: ClassEntry -> ClassResult, t: Tally, cs: seq<ClassEntry>)
    ensures ClassFold(norm, t, cs).classes == t.classes + KeptBy(norm, cs)
    decreases |cs|
  {
    if cs == [] {
      assert t.classes + [] == t.classes;
    } else {
      var r := norm(cs[0]);
      var t' := ClassStep(norm, t, cs[0]);
      ClassFoldClasses(norm, t', cs[1..]);
      if r.kept.Some? {
        assert t'.classes == t.classes + [r.kept.value];
        assert KeptBy(norm, cs) == [r.kept.value] + KeptBy(norm, cs[1..]);
        assert t.classes + [r.kept.value] + KeptBy(norm, cs[1..]) == t.classes + KeptBy(norm, cs);
      }
    }
  }

  lemma {:induction false} ClassFoldUnknown(norm: ClassEntry -> ClassResult, t: Tally, cs: seq<ClassEntry>)
    ensures ClassFold(norm, t, cs).unknown == t.unknown + UnknownBy(norm, cs)
    decreases |cs|
  {
    if cs == [] {
      assert t.unknown + [] == t.unknown;
    } else {
      var r := norm(cs[0]);
      var t' := ClassStep(norm, t, cs[0]);
      ClassFoldUnknown(norm, t', cs[1..]);
      if r.kept.Some? && r.isUnknown {
        var n := r.kept.value.name;
        assert t'.unknown == t.unknown + [n];
        assert UnknownBy(norm, cs) == [n] + UnknownBy(norm, cs[1..]);
        assert t.unknown + [n] + UnknownBy(norm, cs[1..]) == t.unknown + UnknownBy(norm, cs);
      }
    }
  }

  lemma {:induction false} ClassFoldMerged(norm: ClassEntry -> ClassResult, t: Tally, cs: seq<ClassEntry>)
    ensures ClassFold(norm, t, cs).merged == MergeInto(t.merged, EmittedBy(norm, cs))
    decreases |cs|
  {
    if cs != [] {
      var r := norm(cs[0]);
      var t' := ClassStep(norm, t, cs[0]);
      ClassFoldMerged(norm, t', cs[1..]);
      if r.kept.Some? && !r.isUnknown {
        assert t'.merged == MergeInto(t.merged, r.series);
        assert EmittedBy(norm, cs) == r.series + EmittedBy(norm, cs[1..]);
        MergeIntoAppend(t.merged, r.series, EmittedBy(norm, cs[1..]));
      }
    }
  }

  // The same, stated for the classifier.

  /** The classes that are not waiting lists, in order, each projected. */
  function Kept(cs: seq<ClassEntry>): seq<ClassEntry> {
    if cs == [] then []
    else if IsWaitingList(cs[0].name) then Kept(cs[1..])
    else [Projected(cs[0])] + Kept(cs[1..])
  }

  /** The names of the kept classes that gave no series, in order. */
  function Unknown(cs: seq<ClassEntry>): seq<string> {
    if cs == [] then []
    else if !IsWaitingList(cs[0].name) && NormalizeClassName(cs[0].name).series == [] then [cs[0].name] + Unknown(cs[1..])
    else Unknown(cs[1..])
  }

  /** Every counted series the classes give, class by class. */
  function Emitted(cs: seq<ClassEntry>): seq<CountedSeries> {
    if cs == [] then [] else NormalizeClass(cs[0]).series + Emitted(cs[1..])
  }

  lemma {:induction false} KeptByClassifier(cs: seq<ClassEntry>)
    ensures KeptBy(NormalizeClass, cs) == Kept(cs)
  {
    if cs != [] {
      KeptByClassifier(cs[1..]);
    }
  }

  lemma {:induction false} UnknownByClassifier(cs: seq<ClassEntry>)
    ensures UnknownBy(NormalizeClass, cs) == Unknown(cs)
  {
    if cs != [] {
      UnknownByClassifier(cs[1..]);
    }
  }

  lemma {:induction false} EmittedByClassifier(cs: seq<ClassEntry>)
    ensures EmittedBy(NormalizeClass, cs) == Emitted(cs)
  {
    if cs != [] {
      EmittedByClassifier(cs[1..]);
      var r := NormalizeClass(cs[0]);
      if r.kept.None? || r.isUnknown {
        assert r.series == [];
        assert Emitted(cs) == Emitted(cs[1..]);
      }
    }
  }

  /** The classes kept are the non-waiting-list ones, the unknown names are
      those of the kept classes without series, and the series are the
      sorted name-keyed merge of everything the classes gave. */
  lemma NormalizeEventClassesSpec<I>(loc: (string, string) -> int, e: Event<I>)
    requires e.classes.Some?
    ensures var r := NormalizeEventClasses(loc, e); var cs := e.classes.value;
      && r.classes == Some(Kept(cs))
      && r.unknownSeries == Some(Unknown(cs))
      && r.series == Some(SortSeries(loc, MergeAll(Emitted(cs))))
  {
    var cs := e.classes.value;
    ClassFoldSpec(NormalizeClass, Tally([], [], []), cs);
    KeptByClassifier(cs);
    UnknownByClassifier(cs);
    EmittedByClassifier(cs);
    assert [] + Kept(cs) == Kept(cs);
    assert [] + Unknown(cs) == Unknown(cs);
  }

  function NormalizeAllEvents<I>(loc: (string, string) -> int, es: seq<Event<I>>): (r: seq<Event<I>>)
    ensures |r| == |es|
    ensures forall i :: 0 <= i < |es| ==> r[i] == NormalizeEventClasses(loc, es[i])
  {
    if es == [] then [] else [NormalizeEventClasses(loc, es[0])] + NormalizeAllEvents(loc, es[1..])
  }

  // ---------------------------------------------------------------------
  // The whole corpus
  // ---------------------------------------------------------------------

  /** The series of every event, event by event; a missing list adds none. */
  function AllSeries<I>(es: seq<Event<I>>): seq<CountedSeries> {
    if es == [] then [] else es[0].series.GetOr([]) + AllSeries(es[1..])
  }

  /** The sorted name-keyed merge of the series of all events. */
  function CollectUniqueSeries<I>(loc: (string, string) -> int, es: seq<Event<I>>): (r: seq<CountedSeries>)
    ensures multiset(r) == multiset(MergeAll(AllSeries(es)))
  {
    SortSeries(loc, MergeAll(AllSeries(es)))
  }

  /** Each series name of the corpus occurs once in the result, with the
      fields of its first occurrence and the null-aware sum of all its
      counts, and nothing else occurs. */
  lemma CollectUniqueSeriesSpec<I>(loc: (string, string) -> int, es: seq<Event<I>>, k: string)
    ensures NoDuplicates(Names(CollectUniqueSeries(loc, es)))
    ensures var ys := WithName(AllSeries(es), k);
      ys == [] ==> k !in Names(CollectUniqueSeries(loc, es))
    ensures var ys := WithName(AllSeries(es), k);
      ys != [] ==> ys[0].(playerCount := SumCounts(Counts(ys))) in CollectUniqueSeries(loc, es)
  {
    var m := MergeAll(AllSeries(es));
    var r := CollectUniqueSeries(loc, es);
    MergeAllNames(AllSeries(es));
    MergeAllFind(AllSeries(es), k);
    PermutationNames(m, r);
    PermutationHasName(m, r, k);
    var f := FindByName(m, k);
    if f.Some? {
      assert f.value in multiset(m);
    }
  }

  /** Reordering keeps names unique. */
  lemma PermutationNames(m: seq<CountedSeries>, r: seq<CountedSeries>)
    requires multiset(r) == multiset(m) && NoDuplicates(Names(m))
    ensures NoDuplicates(Names(r))
  {
    forall i, j | 0 <= i < j < |r| ensures r[i].name != r[j].name {
      SameName(m, r, i, j);
    }
  }

  lemma SameName(m: seq<CountedSeries>, r: seq<CountedSeries>, i: nat, j: nat)
    requires multiset(r) == multiset(m) && NoDuplicates(Names(m))
    requires i < j < |r|
    ensures r[i].name != r[j].name
  {
    if r[i].name == r[j].name {
      assert r[i] in multiset(m) && r[j] in multiset(m);
      var p :| 0 <= p < |m| && m[p] == r[i];
      var q :| 0 <= q < |m| && m[q] == r[j];
      assert Names(m)[p] == Names(m)[q];
      Twice(r, i, j);
      assert NoDuplicates(m) by {
        forall a, b | 0 <= a < b < |m| ensures m[a] != m[b] {
          assert Names(m)[a] != Names(m)[b];
        }
      }
      OnceEach(m, r[i]);
    }
  }

  /** Reordering keeps the set of names. */
  lemma PermutationHasName(m: seq<CountedSeries>, r: seq<CountedSeries>, k: string)
    requires multiset(r) == multiset(m)
    ensures k in Names(r) <==> k in Names(m)
  {
    if k in Names(r) {
      var i :| 0 <= i < |r| && Names(r)[i] == k;
      assert r[i] in multiset(m);
      var j :| 0 <= j < |m| && m[j] == r[i];
      assert Names(m)[j] == k;
    }
    if k in Names(m) {
      var i :| 0 <= i < |m| && Names(m)[i] == k;
      assert m[i] in multiset(r);
      var j :| 0 <= j < |r| && r[j] == m[i];
      assert Names(r)[j] == k;
    }
  }
}
