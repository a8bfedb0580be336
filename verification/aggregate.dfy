/** Projecting events for the web pages, grouping them by canonical city and
    turning a city name into a file name. */
module Aggregate {
  import opened Base
  import opened Chars
  import opened Assoc
  import opened LocationConfig

  // ---------------------------------------------------------------------
  // Projection of one event
  // ---------------------------------------------------------------------

  /** A series as listed on a fetched event. */
  datatype SeriesRef = SeriesRef(name: string, signupType: Option<string>)

  /** A fetched event; `V` stands for the fields passed through unchanged,
      and `city` is absent when missing or null. */
  datatype RawEvent<V> = RawEvent(
    eventId: V, eventName: V, eventUrl: V, club: V,
    city: Option<string>, startDate: V, endDate: V,
    series: Option<seq<SeriesRef>>)

  /** An event as listed on a city page. */
  datatype Listing<V> = Listing(
    id: V, name: V, url: V, club: V,
    city: Option<string>, start: V, end: V,
    series: seq<string>, ftmSeries: seq<string>)

  function SeriesNames(xs: seq<SeriesRef>): (r: seq<string>)
    ensures |r| == |xs|
    ensures forall i :: 0 <= i < |xs| ==> r[i] == xs[i].name
  {
    if xs == [] then [] else [xs[0].name] + SeriesNames(xs[1..])
  }

  /** The series whose sign-up type is `FTM`, in order. */
  function FtmOnly(xs: seq<SeriesRef>): (r: seq<SeriesRef>)
    ensures forall x :: x in r <==> x in xs && x.signupType == Some("FTM")
    ensures |r| <= |xs|
  {
    if xs == [] then []
    else if xs[0].signupType == Some("FTM") then [xs[0]] + FtmOnly(xs[1..])
    else FtmOnly(xs[1..])
  }

  /** The filter works piecewise, so it keeps the input order and never
      repeats or reorders an entry. */
  lemma {:induction false} FtmOnlyAppend(a: seq<SeriesRef>, b: seq<SeriesRef>)
    ensures FtmOnly(a + b) == FtmOnly(a) + FtmOnly(b)
    decreases |a|
  {
    if a == [] {
      assert a + b == b;
    } else {
      assert (a + b)[0] == a[0] && (a + b)[1..] == a[1..] + b;
      FtmOnlyAppend(a[1..], b);
    }
  }

  function TransformEvent<V>(e: RawEvent<V>): (r: Listing<V>)
    ensures r.id == e.eventId && r.name == e.eventName && r.url == e.eventUrl && r.club == e.club
    ensures r.city == e.city && r.start == e.startDate && r.end == e.endDate
    ensures e.series.None? ==> r.series == [] && r.ftmSeries == []
  {
    var xs := e.series.GetOr([]);
    Listing(e.eventId, e.eventName, e.eventUrl, e.club, e.city, e.startDate, e.endDate,
      SeriesNames(xs), SeriesNames(FtmOnly(xs)))
  }

  /** The series of a listing are the names of the event's series, in
      order, and the FTM series are the names, in order, of those whose
      sign-up type is FTM. */
  lemma TransformEventSeries<V>(e: RawEvent<V>)
    ensures var r := TransformEvent(e); var xs := e.series.GetOr([]);
      && r.series == SeriesNames(xs)
      && r.ftmSeries == SeriesNames(FtmOnly(xs))
      && forall n :: n in r.ftmSeries ==> n in r.series
  {
    var xs := e.series.GetOr([]);
    forall n | n in SeriesNames(FtmOnly(xs)) ensures n in SeriesNames(xs) {
      var i :| 0 <= i < |FtmOnly(xs)| && SeriesNames(FtmOnly(xs))[i] == n;
      var x := FtmOnly(xs)[i];
      assert x in xs;
      var j :| 0 <= j < |xs| && xs[j] == x;
      assert SeriesNames(xs)[j] == n;
    }
  }

  // ---------------------------------------------------------------------
  // Grouping by city
  // ---------------------------------------------------------------------

  /** The city an event is filed under before normalization. */
  function CityOrUnknown(city: Option<string>): string {
    if city.None? || city.value == "" then "Unknown" else city.value
  }

  /** The group key of an event; absent when its city is filtered out. */
  function GroupKey<V>(e: RawEvent<V>): Option<string> {
    NormalizeCity(Some(CityOrUnknown(e.city)))
  }

  datatype Grouping<V> = Grouping(grouped: Entries<seq<Listing<V>>>, skipped: nat)

  // The fold is written for any key function `key`; the program uses
  // `GroupKey`.

  /** One event: skipped without a key, else transformed, given its key as
      city, and appended to the group for that key. */
  function GroupStep<V>(key: RawEvent<V> -> Option<string>, g: Grouping<V>, e: RawEvent<V>): Grouping<V> {
    match key(e)
    case None => g.(skipped := g.skipped + 1)
    case Some(k) =>
      var listed := TransformEvent(e).(city := Some(k));
      g.(grouped := Put(g.grouped, k, Find(g.grouped, k).GetOr([]) + [listed]))
  }

  function GroupFold<V>(key: RawEvent<V> -> Option<string>, g: Grouping<V>, es: seq<RawEvent<V>>): Grouping<V>
    decreases |es|
  {
    if es == [] then g else GroupFold(key, GroupStep(key, g, es[0]), es[1..])
  }

  function GroupEventsByLocation<V>(es: seq<RawEvent<V>>): Grouping<V> {
    GroupFold(GroupKey, Grouping([], 0), es)
  }

  /** The listings of the events filed under `k`, in input order, each with
      its city replaced by `k`. */
  function KeptFor<V>(key: RawEvent<V> -> Option<string>, es: seq<RawEvent<V>>, k: string): seq<Listing<V>> {
    if es == [] then []
    else if key(es[0]) == Some(k) then [TransformEvent(es[0]).(city := Some(k))] + KeptFor(key, es[1..], k)
    else KeptFor(key, es[1..], k)
  }

  /** The number of events without a key. */
  function SkippedCount<V>(key: RawEvent<V> -> Option<string>, es: seq<RawEvent<V>>): nat {
    if es == [] then 0 else (if key(es[0]).None? then 1 else 0) + SkippedCount(key, es[1..])
  }

  /** The number of listings over all groups. */
  function Listed<V>(m: Entries<seq<Listing<V>>>): nat {
    if m == [] then 0 else |m[0].1| + Listed(m[1..])
  }

  lemma {:induction false} ListedPut<V>(m: Entries<seq<Listing<V>>>, k: string, v: seq<Listing<V>>)
    ensures Listed(Put(m, k, v)) == Listed(m) - |Find(m, k).GetOr([])| + |v|
    decreases |m|
  {
    if m != [] && m[0].0 != k {
      ListedPut(m[1..], k, v);
    }
  }

  lemma {:induction false} GroupFoldCounts<V>(key: RawEvent<V> -> Option<string>, g: Grouping<V>, es: seq<RawEvent<V>>)
    ensures var r := GroupFold(key, g, es);
      && r.skipped == g.skipped + SkippedCount(key, es)
      && r.skipped + Listed(r.grouped) == g.skipped + Listed(g.grouped) + |es|
    decreases |es|
  {
    if es != [] {
      GroupFoldCounts(key, GroupStep(key, g, es[0]), es[1..]);
      if key(es[0]).Some? {
        var j := key(es[0]).value;
        ListedPut(g.grouped, j, Find(g.grouped, j).GetOr([]) + [TransformEvent(es[0]).(city := Some(j))]);
      }
    }
  }

  lemma {:induction false} GroupFoldFind<V>(key: RawEvent<V> -> Option<string>, g: Grouping<V>, es: seq<RawEvent<V>>, k: string)
    ensures var a := Find(g.grouped, k); var kept := KeptFor(key, es, k);
      Find(GroupFold(key, g, es).grouped, k) == (if a.None? && kept == [] then None else Some(a.GetOr([]) + kept))
    decreases |es|
  {
    var a := Find(g.grouped, k);
    if es == [] {
      assert a.GetOr([]) + [] == a.GetOr([]);
    } else {
      var e := es[0];
      GroupFoldFind(key, GroupStep(key, g, e), es[1..], k);
      if key(e).Some? {
        var j := key(e).value;
        var listed := TransformEvent(e).(city := Some(j));
        var v := Find(g.grouped, j).GetOr([]) + [listed];
        PutFind(g.grouped, j, v, k);
        if j == k {
          assert KeptFor(key, es, k) == [listed] + KeptFor(key, es[1..], k);
          assert v + KeptFor(key, es[1..], k) == a.GetOr([]) + KeptFor(key, es, k);
        }
      }
    }
  }

  /** Each city's group holds, in input order, exactly the events filed
      under it, with the city replaced; the skipped count is the number of
      filtered events; and skipped and grouped events add up to all events. */
  lemma GroupEventsSpec<V>(es: seq<RawEvent<V>>, k: string)
    ensures var r := GroupEventsByLocation(es); var kept := KeptFor(GroupKey, es, k);
      && Find(r.grouped, k) == (if kept == [] then None else Some(kept))
      && r.skipped == SkippedCount(GroupKey, es)
      && r.skipped + Listed(r.grouped) == |es|
  {
    GroupFoldCounts(GroupKey, Grouping([], 0), es);
    GroupFoldFind(GroupKey, Grouping([], 0), es, k);
    assert [] + KeptFor(GroupKey, es, k) == KeptFor(GroupKey, es, k);
  }

  /** An event without a city is filed under Unknown, never skipped. */
  lemma MissingCityIsUnknown<V>(e: RawEvent<V>)
    requires e.city.None? || e.city == Some("")
    ensures GroupKey(e) == Some("Unknown")
  {
    TrimNoop("Unknown");
    LookupAliases("Unknown");
  }

  // ---------------------------------------------------------------------
  // File names
  // ---------------------------------------------------------------------

  /** The characters not allowed in a file name. */
  predicate IsSpecial(c: char) {
    c in "/\\?%*:|\"<>"
  }

  /** Each special character becomes `-`. */
  function ReplaceSpecials(s: string): (r: string)
    ensures |r| == |s|
    ensures forall i :: 0 <= i < |s| ==> r[i] == if IsSpecial(s[i]) then '-' else s[i]
  {
    if s == [] then [] else [if IsSpecial(s[0]) then '-' else s[0]] + ReplaceSpecials(s[1..])
  }

  /** Each maximal run of `\s` becomes one `_`. */
  function CollapseSpaces(s: string): (r: string)
    ensures forall i :: 0 <= i < |r| ==> !IsSpace(r[i]) && (r[i] in s || r[i] == '_')
    decreases |s|
  {
    if s == [] then []
    else if IsSpace(s[0]) then
      var n := Run(s, Space);
      var r := "_" + CollapseSpaces(s[n..]);
      assert forall i :: 0 <= i < |s[n..]| ==> s[n..][i] in s;
      r
    else
      var r := [s[0]] + CollapseSpaces(s[1..]);
      assert forall i :: 0 <= i < |s[1..]| ==> s[1..][i] in s;
      r
  }

  /** A name fit for a file: no whitespace and no special character. */
  predicate Clean(s: string) {
    forall i :: 0 <= i < |s| ==> !IsSpace(s[i]) && !IsSpecial(s[i])
  }

  function SanitizeFilename(name: string): (r: string)
    ensures Clean(r)
  {
    var d := ReplaceSpecials(Trim(name));
    var r := CollapseSpaces(d);
    assert forall i :: 0 <= i < |r| ==> !IsSpecial(r[i]) by {
      forall i | 0 <= i < |r| ensures !IsSpecial(r[i]) {
        if r[i] != '_' {
          var j :| 0 <= j < |d| && d[j] == r[i];
        }
      }
    }
    r
  }

  lemma {:induction false} ReplaceClean(s: string)
    requires Clean(s)
    ensures ReplaceSpecials(s) == s
  {
  }

  predicate NoSpace(s: string) {
    forall i :: 0 <= i < |s| ==> !IsSpace(s[i])
  }

  /** Text without whitespace is kept as it is. */
  lemma {:induction false} CollapseKeeps(s: string)
    requires NoSpace(s)
    ensures CollapseSpaces(s) == s
    decreases |s|
  {
    if s != [] {
      assert NoSpace(s[1..]);
      CollapseKeeps(s[1..]);
    }
  }

  lemma CollapseClean(s: string)
    requires Clean(s)
    ensures CollapseSpaces(s) == s
  {
    CollapseKeeps(s);
  }

  /** A whole run of whitespace after text without any becomes one `_`, and
      the scan carries on behind the run. */
  lemma {:induction false} CollapseSplit(a: string, w: string, b: string)
    requires NoSpace(a)
    requires |w| > 0 && AllSpace(w)
    requires b == [] || !IsSpace(b[0])
    ensures CollapseSpaces(a + w + b) == a + "_" + CollapseSpaces(b)
    decreases |a|
  {
    var s := a + w + b;
    if a == [] {
      assert s == w + b;
      assert forall k :: 0 <= k < |w| ==> s[k] == w[k];
      RunIs(s, Space, |w|);
      assert s[|w|..] == b;
    } else {
      assert s[0] == a[0] && s[1..] == a[1..] + w + b;
      assert NoSpace(a[1..]);
      CollapseSplit(a[1..], w, b);
      assert a + "_" + CollapseSpaces(b) == [a[0]] + (a[1..] + "_" + CollapseSpaces(b));
    }
  }

  /** A clean name is its own file name. */
  lemma SanitizeClean(name: string)
    requires Clean(name)
    ensures SanitizeFilename(name) == name
  {
    TrimNoop(name);
    ReplaceClean(name);
    CollapseClean(name);
  }

  lemma SanitizeIdempotent(name: string)
    ensures SanitizeFilename(SanitizeFilename(name)) == SanitizeFilename(name)
  {
    SanitizeClean(SanitizeFilename(name));
  }

  predicate NoSpecial(s: string) {
    forall i :: 0 <= i < |s| ==> !IsSpecial(s[i])
  }

  /** Text without special characters is kept as it is. */
  lemma ReplaceKeeps(s: string)
    requires NoSpecial(s)
    ensures ReplaceSpecials(s) == s
  {
  }

  /** Whitespace between clean words adds no special character. */
  lemma JoinedNoSpecial(a: string, w: string, b: string)
    requires Clean(a) && Clean(b) && AllSpace(w)
    ensures NoSpecial(a + w + b)
  {
    var s := a + w + b;
    forall i | 0 <= i < |s| ensures !IsSpecial(s[i]) {
      if i < |a| {
        assert s[i] == a[i];
      } else if i < |a| + |w| {
        assert s[i] == w[i - |a|];
      } else {
        assert s[i] == b[i - |a| - |w|];
      }
    }
  }

  /** Two clean words with whitespace between them are joined by one `_`. */
  lemma SanitizeWords(a: string, w: string, b: string)
    requires a != [] && b != [] && Clean(a) && Clean(b)
    requires |w| > 0 && AllSpace(w)
    ensures SanitizeFilename(a + w + b) == a + "_" + b
  {
    var s := a + w + b;
    assert s[0] == a[0] && s[|s| - 1] == b[|b| - 1];
    TrimNoop(s);
    JoinedNoSpecial(a, w, b);
    ReplaceKeeps(s);
    CollapseSplit(a, w, b);
    CollapseClean(b);
  }

  lemma CleanAarhus()
    ensures Clean("Århus")
  {
    var a := "Århus";
    assert a[0] == 'Å' && a[1] == 'r' && a[2] == 'h' && a[3] == 'u' && a[4] == 's';
  }

  /** The alias "Århus N" becomes the file name "Århus_N". */
  lemma SanitizeExample()
    ensures SanitizeFilename("Århus N") == "Århus_N"
  {
    CleanAarhus();
    assert Clean("N") by {
      assert "N"[0] == 'N';
    }
    SanitizeWords("Århus", " ", "N");
    assert "Århus" + " " + "N" == "Århus N";
    assert "Århus" + "_" + "N" == "Århus_N";
  }
}
