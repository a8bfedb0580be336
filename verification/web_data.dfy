/** The configuration the web page is built from: the categories and
    rankings to filter by, and the coordinates of every city. */
module WebData {
  import opened Base
  import opened Assoc
  import opened Sorting
  import opened Events
  import opened Stats

  /** Every non-empty category once, in default string order. */
  function ExtractUniqueCategories(xs: seq<CountedSeries>): (r: seq<string>)
    ensures forall c :: c in r <==> c in KeysOf(xs, CategoryKey)
  {
    SortUnique(CodeUnitOrder(), KeysOf(xs, CategoryKey))
  }

  /** Every present, non-empty ranking once, by the number in it. */
  function ExtractUniqueRankings(xs: seq<CountedSeries>): (r: seq<string>)
    ensures forall c :: c in r <==> c in KeysOf(xs, RankingKey)
  {
    SortUnique(NumericOrder(), KeysOf(xs, RankingKey))
  }

  /** A category is listed exactly when it is non-empty and some series has
      it; the list has no repeats and is in UTF-16 code-unit order. */
  lemma UniqueCategoriesSpec(xs: seq<CountedSeries>, c: string)
    ensures c in ExtractUniqueCategories(xs) <==> c != "" && exists i :: 0 <= i < |xs| && xs[i].category == c
    ensures NoDuplicates(ExtractUniqueCategories(xs))
    ensures SortedBy(CodeUnitOrder(), ExtractUniqueCategories(xs))
  {
    CodeUnitPreorder();
    SortUniqueSpec(CodeUnitOrder(), KeysOf(xs, CategoryKey));
    CategoryKeys(xs, c);
  }

  lemma {:induction false} CategoryKeys(xs: seq<CountedSeries>, c: string)
    ensures c in KeysOf(xs, CategoryKey) <==> c != "" && exists i :: 0 <= i < |xs| && xs[i].category == c
  {
    if xs != [] {
      CategoryKeys(xs[1..], c);
      if c != "" && xs[0].category != c && (exists i :: 0 <= i < |xs| && xs[i].category == c) {
        var i :| 0 <= i < |xs| && xs[i].category == c;
        assert xs[1..][i - 1].category == c;
      }
    }
  }

  /** A ranking is listed exactly when it is non-empty and some series has
      it; the list has no repeats and ascends by the number in it. */
  lemma UniqueRankingsSpec(xs: seq<CountedSeries>, k: string)
    ensures k in ExtractUniqueRankings(xs) <==> k != "" && exists i :: 0 <= i < |xs| && xs[i].ranking == Some(k)
    ensures NoDuplicates(ExtractUniqueRankings(xs))
    ensures var r := ExtractUniqueRankings(xs);
      forall i, j :: 0 <= i < j < |r| ==> NumericKey(r[i]) <= NumericKey(r[j])
  {
    NumericPreorder();
    SortUniqueSpec(NumericOrder(), KeysOf(xs, RankingKey));
    RankingKeys(xs, k);
  }

  lemma {:induction false} RankingKeys(xs: seq<CountedSeries>, k: string)
    ensures k in KeysOf(xs, RankingKey) <==> k != "" && exists i :: 0 <= i < |xs| && xs[i].ranking == Some(k)
  {
    if xs != [] {
      RankingKeys(xs[1..], k);
      if k != "" && xs[0].ranking != Some(k) && (exists i :: 0 <= i < |xs| && xs[i].ranking == Some(k)) {
        var i :| 0 <= i < |xs| && xs[i].ranking == Some(k);
        assert xs[1..][i - 1].ranking == Some(k);
      }
    }
  }

  // ---------------------------------------------------------------------
  // City coordinates
  // ---------------------------------------------------------------------

  /** A geocoded location: latitude and longitude, and whatever else the
      geocoder recorded. */
  datatype Geo<N, E> = Geo(lat: N, lon: N, extra: E)

  datatype LatLon<N> = LatLon(lat: N, lon: N)

  /** Every location under the same name, reduced to its latitude and
      longitude. */
  function BuildLocationsData<N, E>(locations: Entries<Geo<N, E>>): (r: Entries<LatLon<N>>)
    ensures Keys(r) == Keys(locations)
  {
    if locations == [] then []
    else
      var g := locations[0].1;
      [(locations[0].0, LatLon(g.lat, g.lon))] + BuildLocationsData(locations[1..])
  }

  /** What a name maps to is the latitude and longitude of what it mapped to. */
  lemma {:induction false} BuildLocationsFind<N, E>(locations: Entries<Geo<N, E>>, k: string)
    ensures var g := Find(locations, k);
      Find(BuildLocationsData(locations), k) == if g.None? then None else Some(LatLon(g.value.lat, g.value.lon))
  {
    if locations != [] {
      BuildLocationsFind(locations[1..], k);
    }
  }
}
