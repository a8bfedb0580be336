/** The city alias table and city-name normalization. */
module LocationConfig {
  import opened Base
  import opened Chars

  /** An alias and what it stands for; `None` marks a name that is not a
      city and is filtered out. */
  type Alias = (string, Option<string>)

  /** The alias table, in the order it is written. */
  const Aliases: seq<Alias> := [
    ("Copenhagen", Some("København")),
    ("København S", Some("København")),
    ("Aarhus", Some("Århus")),
    ("Århus N", Some("Århus")),
    ("Horsens (Stensballe)", Some("Horsens")),
    ("Denmark", None)
  ]

  /** The entry for `k`, if the table has one. */
  function Lookup(table: seq<Alias>, k: string): Option<Option<string>> {
    if table == [] then None
    else if table[0].0 == k then Some(table[0].1)
    else Lookup(table[1..], k)
  }

  /** A missing or empty name is no city; otherwise the trimmed name is
      replaced by its alias target when it is an alias, and kept otherwise. */
  function NormalizeCity(city: Option<string>): (r: Option<string>)
    ensures city.None? || city == Some("") ==> r.None?
  {
    if city.None? || city.value == "" then None
    else
      var t := Trim(city.value);
      match Lookup(Aliases, t)
      case Some(target) => target
      case None => Some(t)
  }

  /** The alias table written out as a case split. */
  function AliasOf(t: string): Option<Option<string>> {
    if t == "Copenhagen" || t == "København S" then Some(Some("København"))
    else if t == "Aarhus" || t == "Århus N" then Some(Some("Århus"))
    else if t == "Horsens (Stensballe)" then Some(Some("Horsens"))
    else if t == "Denmark" then Some(None)
    else None
  }

  lemma {:induction false} LookupAliases(t: string)
    ensures Lookup(Aliases, t) == AliasOf(t)
  {
    var a0 := Aliases;
    var a1 := a0[1..];
    var a2 := a1[1..];
    var a3 := a2[1..];
    var a4 := a3[1..];
    var a5 := a4[1..];
    assert Lookup(a0, t) == if t == "Copenhagen" then Some(Some("København")) else Lookup(a1, t);
    assert Lookup(a1, t) == if t == "København S" then Some(Some("København")) else Lookup(a2, t);
    assert Lookup(a2, t) == if t == "Aarhus" then Some(Some("Århus")) else Lookup(a3, t);
    assert Lookup(a3, t) == if t == "Århus N" then Some(Some("Århus")) else Lookup(a4, t);
    assert Lookup(a4, t) == if t == "Horsens (Stensballe)" then Some(Some("Horsens")) else Lookup(a5, t);
    assert Lookup(a5, t) == if t == "Denmark" then Some(None) else Lookup(a5[1..], t);
    assert a5[1..] == [];
  }

  /** A present, non-empty name is trimmed and then looked up: aliases give
      their target, Denmark gives nothing, anything else stays as trimmed. */
  lemma NormalizeCityCases(city: string)
    requires city != ""
    ensures var t := Trim(city);
      NormalizeCity(Some(city)) == if AliasOf(t).Some? then AliasOf(t).value else Some(t)
  {
    LookupAliases(Trim(city));
  }

  /** Nothing comes out exactly for a missing or empty name and for the
      filtered names. */
  lemma NormalizeCityNull(city: Option<string>)
    ensures NormalizeCity(city).None? <==>
      city.None? || city.value == "" || Trim(city.value) in FilteredLocations()
  {
    if city.Some? && city.value != "" {
      NormalizeCityCases(city.value);
      FilteredMember(Trim(city.value));
    }
  }

  /** The alias keys whose target is `None`, in table order. */
  function FilteredFrom(table: seq<Alias>): (r: seq<string>)
    ensures forall k :: k in r ==> (k, None) in table
  {
    if table == [] then []
    else if table[0].1.None? then [table[0].0] + FilteredFrom(table[1..])
    else FilteredFrom(table[1..])
  }

  function FilteredLocations(): seq<string> {
    FilteredFrom(Aliases)
  }

  /** The cities aliases stand for. */
  function AliasTargets(): seq<string> {
    ["København", "Århus", "Horsens"]
  }

  /** Only Denmark is filtered out. */
  lemma FilteredLocationsValue()
    ensures FilteredLocations() == ["Denmark"]
  {
    assert Aliases[5].1.None?;
  }

  /** Filtered out are exactly the names the table maps to nothing. */
  lemma FilteredMember(t: string)
    ensures t in FilteredLocations() <==> AliasOf(t) == Some(None)
  {
    FilteredLocationsValue();
    assert t in ["Denmark"] <==> t == "Denmark";
  }

  /** No alias target is itself an alias, and none has surrounding space. */
  lemma TargetsAreCanonical(t: string)
    requires t in AliasTargets()
    ensures AliasOf(t).None?
    ensures t != "" && !IsSpace(t[0]) && !IsSpace(t[|t| - 1])
  {
  }

  /** A non-empty normalized name normalizes to itself. */
  lemma NormalizeCityFixed(city: Option<string>)
    requires NormalizeCity(city).Some? && NormalizeCity(city).value != ""
    ensures NormalizeCity(NormalizeCity(city)) == NormalizeCity(city)
  {
    var c := NormalizeCity(city).value;
    var t := Trim(city.value);
    LookupAliases(t);
    LookupAliases(c);
    if AliasOf(t).Some? {
      TargetsAreCanonical(c);
      TrimNoop(c);
    } else {
      TrimIdempotent(city.value);
    }
  }

  /** Whitespace is no city name, yet it is not filtered out: it becomes the
      empty name, which itself normalizes to nothing. */
  lemma BlankCity()
    ensures NormalizeCity(Some(" ")) == Some("")
    ensures NormalizeCity(NormalizeCity(Some(" "))).None?
  {
    assert Run(" ", Space) == 1;
    assert Trim(" ") == "";
  }

  lemma CopenhagenExample()
    ensures NormalizeCity(Some(" Copenhagen ")) == Some("København")
  {
    var s := " Copenhagen ";
    assert Trim(s) == "Copenhagen" by {
      assert Run(s, Space) == 1;
      assert TrailingRun(s[1..], Space) == 1;
      assert s[1..][..|s[1..]| - 1] == "Copenhagen";
    }
    LookupAliases("Copenhagen");
  }

  lemma DenmarkExample()
    ensures NormalizeCity(Some("Denmark")).None?
  {
    TrimNoop("Denmark");
    LookupAliases("Denmark");
  }
}
