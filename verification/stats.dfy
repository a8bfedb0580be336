/** The statistics of a normalized corpus: totals, and per series name,
    category and ranking the number of series and of players. */
module Stats {
  import opened Base
  import opened Events
  import opened Assoc

  // ---------------------------------------------------------------------
  // Counters: an object used as an insertion-ordered map to numbers
  // ---------------------------------------------------------------------

  type Counter = Entries<int>

  /** `c[k] || 0`. */
  function Get(c: Counter, k: string): int {
    Find(c, k).GetOr(0)
  }

  /** `c[k] = (c[k] || 0) + n`. */
  function Bump(c: Counter, k: string, n: int): Counter {
    Put(c, k, Get(c, k) + n)
  }

  /** Bumping only when there is a key: the `if (s.category)` guards. */
  function Add(c: Counter, k: Option<string>, n: int): Counter {
    if k.None? then c else Bump(c, k.value, n)
  }

  // ---------------------------------------------------------------------
  // Tallying a sequence of series
  // ---------------------------------------------------------------------

  function TallyBy(c: Counter, xs: seq<CountedSeries>, key: CountedSeries -> Option<string>, amount: CountedSeries -> int): Counter
    decreases |xs|
  {
    if xs == [] then c else TallyBy(Add(c, key(xs[0]), amount(xs[0])), xs[1..], key, amount)
  }

  /** The keys present, in order, repeats included. */
  function KeysOf(xs: seq<CountedSeries>, key: CountedSeries -> Option<string>): seq<string> {
    if xs == [] then []
    else if key(xs[0]).Some? then [key(xs[0]).value] + KeysOf(xs[1..], key)
    else KeysOf(xs[1..], key)
  }

  /** The sum of the amounts of the series with key `k`. */
  function SumBy(xs: seq<CountedSeries>, key: CountedSeries -> Option<string>, amount: CountedSeries -> int, k: string): int {
    if xs == [] then 0
    else (if key(xs[0]) == Some(k) then amount(xs[0]) else 0) + SumBy(xs[1..], key, amount, k)
  }

  lemma {:induction false} TallyKeys(c: Counter, xs: seq<CountedSeries>, key: CountedSeries -> Option<string>, amount: CountedSeries -> int)
    requires NoDuplicates(Keys(c))
    ensures Keys(TallyBy(c, xs, key, amount)) == DedupInto(Keys(c), KeysOf(xs, key))
    decreases |xs|
  {
    if xs != [] {
      var k := key(xs[0]);
      var c' := Add(c, k, amount(xs[0]));
      assert TallyBy(c, xs, key, amount) == TallyBy(c', xs[1..], key, amount);
      var rest := KeysOf(xs[1..], key);
      if k.Some? {
        var ks := Keys(c);
        var v := k.value;
        assert c' == Put(c, v, Get(c, v) + amount(xs[0]));
        PutKeys(c, v, Get(c, v) + amount(xs[0]));
        DedupIntoStep(ks, v, rest);
        assert Keys(c') == if v in ks then ks else ks + [v];
        assert KeysOf(xs, key) == [v] + rest;
        TallyKeys(c', xs[1..], key, amount);
      } else {
        assert KeysOf(xs, key) == rest;
        TallyKeys(c', xs[1..], key, amount);
      }
    }
  }

  lemma {:induction false} TallyGet(c: Counter, xs: seq<CountedSeries>, key: CountedSeries -> Option<string>, amount: CountedSeries -> int, k: string)
    ensures Get(TallyBy(c, xs, key, amount), k) == Get(c, k) + SumBy(xs, key, amount, k)
    decreases |xs|
  {
    if xs != [] {
      var c' := Add(c, key(xs[0]), amount(xs[0]));
      if key(xs[0]).Some? {
        var j := key(xs[0]).value;
        PutFind(c, j, Get(c, j) + amount(xs[0]), k);
      }
      TallyGet(c', xs[1..], key, amount, k);
    }
  }

  lemma {:induction false} TallyAppend(c: Counter, a: seq<CountedSeries>, b: seq<CountedSeries>, key: CountedSeries -> Option<string>, amount: CountedSeries -> int)
    ensures TallyBy(TallyBy(c, a, key, amount), b, key, amount) == TallyBy(c, a + b, key, amount)
    decreases |a|
  {
    if a == [] {
      assert a + b == b;
    } else {
      assert (a + b)[0] == a[0] && (a + b)[1..] == a[1..] + b;
      TallyAppend(Add(c, key(a[0]), amount(a[0])), a[1..], b, key, amount);
    }
  }

  /** A tally from scratch lists each present key once, in order of first
      occurrence, with the sum of the amounts of the series carrying it. */
  lemma TallyMeaning(xs: seq<CountedSeries>, key: CountedSeries -> Option<string>, amount: CountedSeries -> int, k: string)
    ensures Keys(TallyBy([], xs, key, amount)) == Dedup(KeysOf(xs, key))
    ensures Get(TallyBy([], xs, key, amount), k) == SumBy(xs, key, amount, k)
  {
    TallyKeys([], xs, key, amount);
    TallyGet([], xs, key, amount, k);
  }

  // What the counters are keyed by and what they add up.

  function NameKey(s: CountedSeries): Option<string> { Some(s.name) }

  /** Only a non-empty category is counted. */
  function CategoryKey(s: CountedSeries): Option<string> {
    if s.category != "" then Some(s.category) else None
  }

  /** Only a present, non-empty ranking is counted. */
  function RankingKey(s: CountedSeries): Option<string> {
    if s.ranking.Some? && s.ranking.value != "" then s.ranking else None
  }

  function One(s: CountedSeries): int { 1 }

  /** `s.playerCount || 0`. */
  function Players(s: CountedSeries): int { s.playerCount.GetOr(0) }

  // ---------------------------------------------------------------------
  // The statistics fold
  // ---------------------------------------------------------------------

  datatype Statistics = Statistics(
    totalEvents: int,
    totalClasses: int,
    totalSeries: int,
    totalUnknownSeries: int,
    totalPlayerCount: int,
    byCategory: Counter,
    byCategoryPlayerCount: Counter,
    byRanking: Counter,
    byRankingPlayerCount: Counter,
    bySeriesName: Counter,
    bySeriesNamePlayerCount: Counter,
    unknownSeriesNames: seq<string>)

  /** One series of an event. */
  function SeriesStep(st: Statistics, s: CountedSeries): Statistics {
    var n := Players(s);
    st.(totalSeries := st.totalSeries + 1,
        bySeriesName := Add(st.bySeriesName, NameKey(s), 1),
        totalPlayerCount := st.totalPlayerCount + n,
        bySeriesNamePlayerCount := Add(st.bySeriesNamePlayerCount, NameKey(s), n),
        byCategory := Add(st.byCategory, CategoryKey(s), 1),
        byCategoryPlayerCount := Add(st.byCategoryPlayerCount, CategoryKey(s), n),
        byRanking := Add(st.byRanking, RankingKey(s), 1),
        byRankingPlayerCount := Add(st.byRankingPlayerCount, RankingKey(s), n))
  }

  function SeriesFold(st: Statistics, xs: seq<CountedSeries>): Statistics
    decreases |xs|
  {
    if xs == [] then st else SeriesFold(SeriesStep(st, xs[0]), xs[1..])
  }

  /** One unknown name of an event: counted, and listed the first time. */
  function UnknownStep(st: Statistics, name: string): Statistics {
    st.(totalUnknownSeries := st.totalUnknownSeries + 1,
        unknownSeriesNames := if name in st.unknownSeriesNames then st.unknownSeriesNames else st.unknownSeriesNames + [name])
  }

  function UnknownFold(st: Statistics, ns: seq<string>): Statistics
    decreases |ns|
  {
    if ns == [] then st else UnknownFold(UnknownStep(st, ns[0]), ns[1..])
  }

  /** One event: its classes, then its series, then its unknown names; a
      missing list counts as empty. */
  function EventStep<I>(st: Statistics, e: Event<I>): Statistics {
    var st1 := st.(totalClasses := st.totalClasses + |e.classes.GetOr([])|);
    UnknownFold(SeriesFold(st1, e.series.GetOr([])), e.unknownSeries.GetOr([]))
  }

  function EventFold<I>(st: Statistics, es: seq<Event<I>>): Statistics
    decreases |es|
  {
    if es == [] then st else EventFold(EventStep(st, es[0]), es[1..])
  }

  function GetStatistics<I>(es: seq<Event<I>>): Statistics {
    EventFold(Statistics(|es|, 0, 0, 0, 0, [], [], [], [], [], [], []), es)
  }

  // ---------------------------------------------------------------------
  // What the fold computes
  // ---------------------------------------------------------------------

  function ClassCount<I>(es: seq<Event<I>>): int {
    if es == [] then 0 else |es[0].classes.GetOr([])| + ClassCount(es[1..])
  }

  /** The unknown names of every event, event by event. */
  function AllUnknown<I>(es: seq<Event<I>>): seq<string> {
    if es == [] then [] else es[0].unknownSeries.GetOr([]) + AllUnknown(es[1..])
  }

  /** `st` is `st0` after tallying the series `xs`. */
  predicate TalliedFrom(st0: Statistics, st: Statistics, xs: seq<CountedSeries>) {
    && st.totalSeries == st0.totalSeries + |xs|
    && st.totalPlayerCount == st0.totalPlayerCount + Total(Counts(xs))
    && st.bySeriesName == TallyBy(st0.bySeriesName, xs, NameKey, One)
    && st.bySeriesNamePlayerCount == TallyBy(st0.bySeriesNamePlayerCount, xs, NameKey, Players)
    && st.byCategory == TallyBy(st0.byCategory, xs, CategoryKey, One)
    && st.byCategoryPlayerCount == TallyBy(st0.byCategoryPlayerCount, xs, CategoryKey, Players)
    && st.byRanking == TallyBy(st0.byRanking, xs, RankingKey, One)
    && st.byRankingPlayerCount == TallyBy(st0.byRankingPlayerCount, xs, RankingKey, Players)
  }

  lemma {:induction false} SeriesFoldSpec(st: Statistics, xs: seq<CountedSeries>)
    ensures TalliedFrom(st, SeriesFold(st, xs), xs)
    ensures var r := SeriesFold(st, xs);
      r.totalEvents == st.totalEvents && r.totalClasses == st.totalClasses
      && r.totalUnknownSeries == st.totalUnknownSeries && r.unknownSeriesNames == st.unknownSeriesNames
    decreases |xs|
  {
    if xs != [] {
      SeriesFoldSpec(SeriesStep(st, xs[0]), xs[1..]);
      assert Counts(xs) == [xs[0].playerCount] + Counts(xs[1..]);
    }
  }

  lemma {:induction false} UnknownFoldSpec(st: Statistics, ns: seq<string>)
    requires NoDuplicates(st.unknownSeriesNames)
    ensures var r := UnknownFold(st, ns);
      && r.unknownSeriesNames == DedupInto(st.unknownSeriesNames, ns)
      && r.totalUnknownSeries == st.totalUnknownSeries + |ns|
      && TalliedFrom(st, r, [])
      && r.totalEvents == st.totalEvents && r.totalClasses == st.totalClasses
    decreases |ns|
  {
    if ns != [] {
      var st' := UnknownStep(st, ns[0]);
      assert NoDuplicates(st'.unknownSeriesNames);
      UnknownFoldSpec(st', ns[1..]);
    }
  }

  lemma TalliedTrans(st0: Statistics, st1: Statistics, st2: Statistics, a: seq<CountedSeries>, b: seq<CountedSeries>)
    requires TalliedFrom(st0, st1, a) && TalliedFrom(st1, st2, b)
    ensures TalliedFrom(st0, st2, a + b)
  {
    TallyAppend(st0.bySeriesName, a, b, NameKey, One);
    TallyAppend(st0.bySeriesNamePlayerCount, a, b, NameKey, Players);
    TallyAppend(st0.byCategory, a, b, CategoryKey, One);
    TallyAppend(st0.byCategoryPlayerCount, a, b, CategoryKey, Players);
    TallyAppend(st0.byRanking, a, b, RankingKey, One);
    TallyAppend(st0.byRankingPlayerCount, a, b, RankingKey, Players);
    TotalAppend(Counts(a), Counts(b));
    CountsAppend(a, b);
  }

  lemma {:induction false} TotalAppend(a: seq<Option<int>>, b: seq<Option<int>>)
    ensures Total(a + b) == Total(a) + Total(b)
  {
    if a == [] {
      assert a + b == b;
    } else {
      assert (a + b)[0] == a[0] && (a + b)[1..] == a[1..] + b;
      TotalAppend(a[1..], b);
    }
  }

  lemma CountsAppend(a: seq<CountedSeries>, b: seq<CountedSeries>)
    ensures Counts(a + b) == Counts(a) + Counts(b)
  {
  }

  lemma TalliedNothing(st: Statistics)
    ensures TalliedFrom(st, st, [])
  {
  }

  lemma {:induction false} EventFoldSpec<I>(st: Statistics, es: seq<Event<I>>)
    requires NoDuplicates(st.unknownSeriesNames)
    ensures var r := EventFold(st, es);
      && TalliedFrom(st, r, AllSeries(es))
      && r.totalEvents == st.totalEvents
      && r.totalClasses == st.totalClasses + ClassCount(es)
      && r.totalUnknownSeries == st.totalUnknownSeries + |AllUnknown(es)|
      && r.unknownSeriesNames == DedupInto(st.unknownSeriesNames, AllUnknown(es))
    decreases |es|
  {
    if es == [] {
      TalliedNothing(st);
    } else {
      var e := es[0];
      var st1 := st.(totalClasses := st.totalClasses + |e.classes.GetOr([])|);
      var st2 := SeriesFold(st1, e.series.GetOr([]));
      var st3 := UnknownFold(st2, e.unknownSeries.GetOr([]));
      SeriesFoldSpec(st1, e.series.GetOr([]));
      UnknownFoldSpec(st2, e.unknownSeries.GetOr([]));
      EventFoldSpec(st3, es[1..]);
      var rest := EventFold(st3, es[1..]);
      TalliedTrans(st1, st2, st3, e.series.GetOr([]), []);
      assert e.series.GetOr([]) + [] == e.series.GetOr([]);
      TalliedTrans(st1, st3, rest, e.series.GetOr([]), AllSeries(es[1..]));
      DedupIntoAppend(st.unknownSeriesNames, e.unknownSeries.GetOr([]), AllUnknown(es[1..]));
    }
  }

  /** The totals are the sizes and the player sum of the whole corpus, the
      unknown names are listed once each in order of first occurrence, and
      each counter is the tally of all series by its key. */
  lemma GetStatisticsSpec<I>(es: seq<Event<I>>)
    ensures var st := GetStatistics(es); var all := AllSeries(es);
      && st.totalEvents == |es|
      && st.totalClasses == ClassCount(es)
      && st.totalSeries == |all|
      && st.totalUnknownSeries == |AllUnknown(es)|
      && st.totalPlayerCount == Total(Counts(all))
      && st.unknownSeriesNames == Dedup(AllUnknown(es))
      && st.bySeriesName == TallyBy([], all, NameKey, One)
      && st.bySeriesNamePlayerCount == TallyBy([], all, NameKey, Players)
      && st.byCategory == TallyBy([], all, CategoryKey, One)
      && st.byCategoryPlayerCount == TallyBy([], all, CategoryKey, Players)
      && st.byRanking == TallyBy([], all, RankingKey, One)
      && st.byRankingPlayerCount == TallyBy([], all, RankingKey, Players)
  {
    EventFoldSpec(Statistics(|es|, 0, 0, 0, 0, [], [], [], [], [], [], []), es);
  }

  /** A non-empty category is listed once, when some series has it, with
      the number of such series and the sum of their players. */
  lemma ByCategorySpec<I>(es: seq<Event<I>>, k: string)
    requires k != ""
    ensures var st := GetStatistics(es); var all := AllSeries(es);
      && Keys(st.byCategory) == Dedup(KeysOf(all, CategoryKey))
      && Get(st.byCategory, k) == |WithCategory(all, k)|
      && Get(st.byCategoryPlayerCount, k) == Total(Counts(WithCategory(all, k)))
  {
    GetStatisticsSpec(es);
    var all := AllSeries(es);
    TallyMeaning(all, CategoryKey, One, k);
    TallyMeaning(all, CategoryKey, Players, k);
    CategorySums(all, k);
  }

  function WithCategory(xs: seq<CountedSeries>, k: string): seq<CountedSeries> {
    if xs == [] then []
    else if xs[0].category == k then [xs[0]] + WithCategory(xs[1..], k)
    else WithCategory(xs[1..], k)
  }

  lemma {:induction false} CategorySums(xs: seq<CountedSeries>, k: string)
    requires k != ""
    ensures SumBy(xs, CategoryKey, One, k) == |WithCategory(xs, k)|
    ensures SumBy(xs, CategoryKey, Players, k) == Total(Counts(WithCategory(xs, k)))
  {
    if xs != [] {
      CategorySums(xs[1..], k);
    }
  }

  /** Per series name: each name once, with the number of series of that
      name and the sum of their players. */
  lemma BySeriesNameSpec<I>(es: seq<Event<I>>, k: string)
    ensures var st := GetStatistics(es); var all := AllSeries(es);
      && Keys(st.bySeriesName) == Dedup(Names(all))
      && Get(st.bySeriesName, k) == |WithName(all, k)|
      && Get(st.bySeriesNamePlayerCount, k) == Total(Counts(WithName(all, k)))
  {
    GetStatisticsSpec(es);
    var all := AllSeries(es);
    TallyMeaning(all, NameKey, One, k);
    TallyMeaning(all, NameKey, Players, k);
    NameSums(all, k);
  }

  lemma {:induction false} NameSums(xs: seq<CountedSeries>, k: string)
    ensures KeysOf(xs, NameKey) == Names(xs)
    ensures SumBy(xs, NameKey, One, k) == |WithName(xs, k)|
    ensures SumBy(xs, NameKey, Players, k) == Total(Counts(WithName(xs, k)))
  {
    if xs != [] {
      NameSums(xs[1..], k);
    }
  }

  /** A non-empty ranking is listed once, when some series has it, with the
      number of such series and the sum of their players. */
  lemma ByRankingSpec<I>(es: seq<Event<I>>, k: string)
    requires k != ""
    ensures var st := GetStatistics(es); var all := AllSeries(es);
      && Keys(st.byRanking) == Dedup(KeysOf(all, RankingKey))
      && Get(st.byRanking, k) == |WithRanking(all, k)|
      && Get(st.byRankingPlayerCount, k) == Total(Counts(WithRanking(all, k)))
  {
    GetStatisticsSpec(es);
    var all := AllSeries(es);
    TallyMeaning(all, RankingKey, One, k);
    TallyMeaning(all, RankingKey, Players, k);
    RankingSums(all, k);
  }

  function WithRanking(xs: seq<CountedSeries>, k: string): seq<CountedSeries> {
    if xs == [] then []
    else if xs[0].ranking == Some(k) then [xs[0]] + WithRanking(xs[1..], k)
    else WithRanking(xs[1..], k)
  }

  lemma {:induction false} RankingSums(xs: seq<CountedSeries>, k: string)
    requires k != ""
    ensures SumBy(xs, RankingKey, One, k) == |WithRanking(xs, k)|
    ensures SumBy(xs, RankingKey, Players, k) == Total(Counts(WithRanking(xs, k)))
  {
    if xs != [] {
      RankingSums(xs[1..], k);
    }
  }
}
