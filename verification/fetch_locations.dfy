/** The cities to geocode: every city named by an event. */
module FetchLocations {
  import opened Base
  import opened Sorting
  import opened Aggregate

  /** The non-empty cities of the events, in order, repeats included. */
  function CitiesOf<V>(es: seq<RawEvent<V>>): seq<string> {
    if es == [] then []
    else if es[0].city.Some? && es[0].city.value != "" then [es[0].city.value] + CitiesOf(es[1..])
    else CitiesOf(es[1..])
  }

  function ExtractUniqueCities<V>(es: seq<RawEvent<V>>): (r: seq<string>)
    ensures es == [] ==> r == []
  {
    SortUnique(CodeUnitOrder(), CitiesOf(es))
  }

  /** A city is listed exactly when it is non-empty and some event has it;
      the list has no repeats and is in UTF-16 code-unit order. */
  lemma UniqueCitiesSpec<V>(es: seq<RawEvent<V>>, c: string)
    ensures c in ExtractUniqueCities(es) <==> c != "" && exists i :: 0 <= i < |es| && es[i].city == Some(c)
    ensures NoDuplicates(ExtractUniqueCities(es))
    ensures SortedBy(CodeUnitOrder(), ExtractUniqueCities(es))
  {
    CodeUnitPreorder();
    SortUniqueSpec(CodeUnitOrder(), CitiesOf(es));
    CitiesMembers(es, c);
  }

  lemma {:induction false} CitiesMembers<V>(es: seq<RawEvent<V>>, c: string)
    ensures c in CitiesOf(es) <==> c != "" && exists i :: 0 <= i < |es| && es[i].city == Some(c)
  {
    if es != [] {
      CitiesMembers(es[1..], c);
      if c != "" && es[0].city != Some(c) && (exists i :: 0 <= i < |es| && es[i].city == Some(c)) {
        var i :| 0 <= i < |es| && es[i].city == Some(c);
        assert es[1..][i - 1].city == Some(c);
      }
    }
  }
}
