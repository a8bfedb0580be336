/** Merging the geocoded locations under their canonical city names. */
module NormalizeLocations {
  import opened Base
  import opened Chars
  import opened Assoc
  import opened Sorting
  import opened LocationConfig

  /** The coordinates stored for a name, `None` standing for a falsy value;
      `C` is whatever the geocoder recorded. */
  type Coords<C> = Option<C>

  datatype LocationsData<C> = LocationsData(locations: Option<Entries<Coords<C>>>)

  datatype Normalized<C> = Normalized(normalizedLocations: Entries<Coords<C>>, mergedFrom: Entries<seq<string>>)

  function Canonical(name: string): Option<string> {
    NormalizeCity(Some(name))
  }

  // The fold is written for any canonical-name function `canon`; the
  // program uses `Canonical`.

  /** One input entry: filtered names are dropped; a name that differs from
      its canonical name is recorded under it; the canonical name takes the
      coordinates unless it already holds truthy ones. */
  function LocationStep<C>(canon: string -> Option<string>, st: Normalized<C>, entry: (string, Coords<C>)): Normalized<C> {
    var name := entry.0;
    match canon(name)
    case None => st
    case Some(c) =>
      var merged := if name != c then Put(st.mergedFrom, c, Find(st.mergedFrom, c).GetOr([]) + [name]) else st.mergedFrom;
      var held := Find(st.normalizedLocations, c);
      var locs := if held.None? || held.value.None? then Put(st.normalizedLocations, c, entry.1) else st.normalizedLocations;
      Normalized(locs, merged)
  }

  function LocationFold<C>(canon: string -> Option<string>, st: Normalized<C>, xs: Entries<Coords<C>>): Normalized<C>
    decreases |xs|
  {
    if xs == [] then st else LocationFold(canon, LocationStep(canon, st, xs[0]), xs[1..])
  }

  /** The entries of `m` for `keys`, in that order. */
  function EntriesFor<V>(m: Entries<Option<V>>, keys: seq<string>): (r: Entries<Option<V>>)
    ensures Keys(r) == keys
  {
    if keys == [] then [] else [(keys[0], Find(m, keys[0]).GetOr(None))] + EntriesFor(m, keys[1..])
  }

  /** The locations re-keyed by canonical name, with their keys ordered by
      the locale comparison `loc`; a missing `locations` field counts as
      empty. */
  function NormalizeLocationsData<C>(loc: (string, string) -> int, data: LocationsData<C>): (r: Normalized<C>)
    ensures data.locations.None? ==> r.normalizedLocations == [] && r.mergedFrom == []
  {
    var st := LocationFold(Canonical, Normalized([], []), data.locations.GetOr([]));
    var keys := Sort(NoLater(loc), Keys(st.normalizedLocations));
    Normalized(EntriesFor(st.normalizedLocations, keys), st.mergedFrom)
  }

  // ---------------------------------------------------------------------
  // Reference definitions
  // ---------------------------------------------------------------------

  /** The canonical names of the entries that are not filtered out, in
      order, repeats included. */
  function CanonicalNames<C>(canon: string -> Option<string>, xs: Entries<Coords<C>>): seq<string> {
    if xs == [] then []
    else if canon(xs[0].0).Some? then [canon(xs[0].0).value] + CanonicalNames(canon, xs[1..])
    else CanonicalNames(canon, xs[1..])
  }

  /** The input names other than `c` whose canonical name is `c`, in order. */
  function MergedNames<C>(canon: string -> Option<string>, xs: Entries<Coords<C>>, c: string): seq<string> {
    if xs == [] then []
    else if canon(xs[0].0) == Some(c) && xs[0].0 != c then [xs[0].0] + MergedNames(canon, xs[1..], c)
    else MergedNames(canon, xs[1..], c)
  }

  /** What ends up under `c`: nothing when no entry has canonical name `c`,
      else the first truthy coordinates of such an entry, else a falsy value. */
  function FirstCoords<C>(canon: string -> Option<string>, xs: Entries<Coords<C>>, c: string): Option<Coords<C>> {
    if xs == [] then None
    else if canon(xs[0].0) == Some(c) && xs[0].1.Some? then Some(xs[0].1)
    else if canon(xs[0].0) == Some(c) then Some(FirstCoords(canon, xs[1..], c).GetOr(None))
    else FirstCoords(canon, xs[1..], c)
  }

  /** Holding `a`, then meeting entries whose own first coordinates are `b`. */
  function Keep<C>(a: Option<Coords<C>>, b: Option<Coords<C>>): Option<Coords<C>> {
    if a.Some? && a.value.Some? then a else if b.None? then a else b
  }

  // ---------------------------------------------------------------------
  // The fold
  // ---------------------------------------------------------------------

  lemma {:induction false} FoldKeys<C>(canon: string -> Option<string>, st: Normalized<C>, xs: Entries<Coords<C>>)
    requires NoDuplicates(Keys(st.normalizedLocations))
    ensures Keys(LocationFold(canon, st, xs).normalizedLocations) == DedupInto(Keys(st.normalizedLocations), CanonicalNames(canon, xs))
    decreases |xs|
  {
    if xs != [] {
      var st' := LocationStep(canon, st, xs[0]);
      var c := canon(xs[0].0);
      if c.Some? {
        var m := st.normalizedLocations;
        FindKeys(m, c.value);
        PutKeys(m, c.value, xs[0].1);
        assert Keys(st'.normalizedLocations) == if c.value in Keys(m) then Keys(m) else Keys(m) + [c.value];
        DedupIntoStep(Keys(m), c.value, CanonicalNames(canon, xs[1..]));
        assert CanonicalNames(canon, xs) == [c.value] + CanonicalNames(canon, xs[1..]);
      }
      FoldKeys(canon, st', xs[1..]);
    }
  }

  lemma {:induction false} FoldCoords<C>(canon: string -> Option<string>, st: Normalized<C>, xs: Entries<Coords<C>>, k: string)
    ensures Find(LocationFold(canon, st, xs).normalizedLocations, k) == Keep(Find(st.normalizedLocations, k), FirstCoords(canon, xs, k))
    decreases |xs|
  {
    if xs != [] {
      var st' := LocationStep(canon, st, xs[0]);
      var c := canon(xs[0].0);
      if c.Some? {
        PutFind(st.normalizedLocations, c.value, xs[0].1, k);
      }
      FoldCoords(canon, st', xs[1..], k);
    }
  }

  lemma MergedStep<C>(canon: string -> Option<string>, st: Normalized<C>, x: (string, Coords<C>), k: string)
    ensures Find(LocationStep(canon, st, x).mergedFrom, k) ==
      if canon(x.0) == Some(k) && x.0 != k then Some(Find(st.mergedFrom, k).GetOr([]) + [x.0])
      else Find(st.mergedFrom, k)
  {
    var c := canon(x.0);
    if c.Some? && x.0 != c.value {
      PutFind(st.mergedFrom, c.value, Find(st.mergedFrom, c.value).GetOr([]) + [x.0], k);
    }
  }

  /** Names recorded so far, `a`, followed by more names `m`. */
  function Appended(a: Option<seq<string>>, m: seq<string>): Option<seq<string>> {
    if a.None? && m == [] then None else Some(a.GetOr([]) + m)
  }

  lemma AppendedCons(a: Option<seq<string>>, x: string, m: seq<string>)
    ensures Appended(Some(a.GetOr([]) + [x]), m) == Appended(a, [x] + m)
  {
    assert a.GetOr([]) + [x] + m == a.GetOr([]) + ([x] + m);
  }

  lemma {:induction false} FoldMerged<C>(canon: string -> Option<string>, st: Normalized<C>, xs: Entries<Coords<C>>, k: string)
    ensures Find(LocationFold(canon, st, xs).mergedFrom, k) == Appended(Find(st.mergedFrom, k), MergedNames(canon, xs, k))
    decreases |xs|
  {
    var a := Find(st.mergedFrom, k);
    if xs != [] {
      var name := xs[0].0;
      MergedStep(canon, st, xs[0], k);
      FoldMerged(canon, LocationStep(canon, st, xs[0]), xs[1..], k);
      if canon(name) == Some(k) && name != k {
        AppendedCons(a, name, MergedNames(canon, xs[1..], k));
      }
    } else {
      assert a.GetOr([]) + [] == a.GetOr([]);
    }
  }

  lemma {:induction false} EntriesForFind<V>(m: Entries<Option<V>>, keys: seq<string>, k: string)
    requires forall i :: 0 <= i < |keys| ==> Find(m, keys[i]).Some?
    ensures Find(EntriesFor(m, keys), k) == if k in keys then Find(m, k) else None
  {
    if keys != [] {
      EntriesForFind(m, keys[1..], k);
    }
  }

  // ---------------------------------------------------------------------
  // What the result holds
  // ---------------------------------------------------------------------

  /** Re-ordering the keys keeps every entry. */
  lemma ReorderedFind<C>(m: Entries<Coords<C>>, keys: seq<string>, k: string)
    requires multiset(keys) == multiset(Keys(m))
    ensures Find(EntriesFor(m, keys), k) == Find(m, k)
  {
    forall i | 0 <= i < |keys| ensures Find(m, keys[i]).Some? {
      assert keys[i] in multiset(Keys(m));
      FindKeys(m, keys[i]);
    }
    EntriesForFind(m, keys, k);
    FindKeys(m, k);
    assert k in keys <==> k in multiset(Keys(m));
  }

  /** The keys are the distinct canonical names of the entries that are not
      filtered out, each once. */
  lemma NormalizeLocationsKeys<C>(loc: (string, string) -> int, data: LocationsData<C>)
    ensures var r := NormalizeLocationsData(loc, data); var xs := data.locations.GetOr([]);
      && NoDuplicates(Keys(r.normalizedLocations))
      && multiset(Keys(r.normalizedLocations)) == multiset(Dedup(CanonicalNames(Canonical, xs)))
  {
    var xs := data.locations.GetOr([]);
    var m := LocationFold(Canonical, Normalized([], []), xs).normalizedLocations;
    FoldKeys(Canonical, Normalized([], []), xs);
    PermutationDistinct(Keys(m), Sort(NoLater(loc), Keys(m)));
  }

  /** Each key holds the first truthy coordinates among the entries merged
      into it (a falsy value when none has any); other names hold nothing. */
  lemma NormalizeLocationsCoords<C>(loc: (string, string) -> int, data: LocationsData<C>, k: string)
    ensures Find(NormalizeLocationsData(loc, data).normalizedLocations, k) == FirstCoords(Canonical, data.locations.GetOr([]), k)
  {
    var xs := data.locations.GetOr([]);
    var m := LocationFold(Canonical, Normalized([], []), xs).normalizedLocations;
    FoldCoords(Canonical, Normalized([], []), xs, k);
    ReorderedFind(m, Sort(NoLater(loc), Keys(m)), k);
  }

  /** `mergedFrom` lists under a canonical name, in input order, exactly the
      other names merged into it, and has no other keys. */
  lemma NormalizeLocationsMerged<C>(loc: (string, string) -> int, data: LocationsData<C>, k: string)
    ensures var m := MergedNames(Canonical, data.locations.GetOr([]), k);
      Find(NormalizeLocationsData(loc, data).mergedFrom, k) == if m == [] then None else Some(m)
  {
    var m := MergedNames(Canonical, data.locations.GetOr([]), k);
    FoldMerged(Canonical, Normalized([], []), data.locations.GetOr([]), k);
    assert Appended(None, m) == if m == [] then None else Some(m) by {
      assert [] + m == m;
    }
  }

  /** With a consistent locale comparison the keys come out in its order. */
  lemma NormalizeLocationsSorted<C>(loc: (string, string) -> int, data: LocationsData<C>)
    requires IsComparator(loc)
    ensures SortedBy(NoLater(loc), Keys(NormalizeLocationsData(loc, data).normalizedLocations))
  {
    ComparatorPreorder(loc);
    var st := LocationFold(Canonical, Normalized([], []), data.locations.GetOr([]));
    SortSorted(NoLater(loc), Keys(st.normalizedLocations));
  }

  /** A filtered-out name other than the empty one is neither a key nor
      recorded as merged. */
  lemma FilteredNamesVanish<C>(loc: (string, string) -> int, data: LocationsData<C>, n: string)
    requires Canonical(n).None? && n != ""
    ensures n !in Keys(NormalizeLocationsData(loc, data).normalizedLocations)
    ensures n !in Keys(NormalizeLocationsData(loc, data).mergedFrom)
    ensures forall c :: n !in MergedNames(Canonical, data.locations.GetOr([]), c)
  {
    var xs := data.locations.GetOr([]);
    var r := NormalizeLocationsData(loc, data);
    NormalizeLocationsKeys(loc, data);
    CanonicalNotFiltered(xs, n);
    assert n !in multiset(Keys(r.normalizedLocations));
    NormalizeLocationsMerged(loc, data, n);
    FindKeys(r.mergedFrom, n);
    MergedNotSelf(xs, n);
    forall c ensures n !in MergedNames(Canonical, xs, c) {
      MergedAreCanonical(xs, c, n);
    }
  }

  lemma {:induction false} MergedNotSelf<C>(xs: Entries<Coords<C>>, n: string)
    requires Canonical(n).None? && n != ""
    ensures MergedNames(Canonical, xs, n) == []
  {
    if xs != [] {
      MergedNotSelf(xs[1..], n);
      if Canonical(xs[0].0) == Some(n) {
        NormalizeCityFixed(Some(xs[0].0));
      }
    }
  }

  /** A non-empty canonical name is its own canonical name, so a filtered
      name is never the canonical name of another. */
  lemma {:induction false} CanonicalNotFiltered<C>(xs: Entries<Coords<C>>, n: string)
    requires Canonical(n).None? && n != ""
    ensures n !in CanonicalNames(Canonical, xs)
  {
    if xs != [] {
      CanonicalNotFiltered(xs[1..], n);
      if Canonical(xs[0].0) == Some(n) {
        NormalizeCityFixed(Some(xs[0].0));
      }
    }
  }

  lemma {:induction false} MergedAreCanonical<C>(xs: Entries<Coords<C>>, c: string, n: string)
    requires Canonical(n).None?
    ensures n !in MergedNames(Canonical, xs, c)
  {
    if xs != [] {
      MergedAreCanonical(xs[1..], c, n);
    }
  }

  /** The empty name is filtered out, but a blank one becomes the key "",
      recorded as merged from the blank name. */
  lemma BlankLocation<C>(loc: (string, string) -> int, v: C)
    ensures Canonical("").None?
    ensures var r := NormalizeLocationsData(loc, LocationsData(Some([(" ", Some(v))])));
      Find(r.normalizedLocations, "") == Some(Some(v)) && Find(r.mergedFrom, "") == Some([" "])
  {
    BlankCity();
    var data := LocationsData(Some([(" ", Some(v))]));
    var xs := data.locations.GetOr([]);
    assert Canonical(" ") == Some("");
    NormalizeLocationsCoords(loc, data, "");
    NormalizeLocationsMerged(loc, data, "");
    assert xs[1..] == [];
    assert FirstCoords(Canonical, xs, "") == Some(Some(v));
    assert MergedNames(Canonical, xs, "") == [" "];
  }
}
