/** The rule-based classifier of tournament class names: a free-text class
    name such as "Herre50 FTM", "Damer DPF 25/35/50" or "Tilmelding, herrer
    (200-100)" becomes zero or more normalized series records. */
module Classify {
  import opened Base
  import opened Chars
  import opened Regex

  // ---------------------------------------------------------------------
  // Vocabulary
  // ---------------------------------------------------------------------

  /** The recognised ranking levels, as written after "DPF". */
  const Levels: seq<string> := ["10", "25", "35", "50", "60", "100", "200", "500", "1000", "2000"]

  predicate IsLevel(n: string) {
    n in Levels
  }

  /** A ranking label: "DPF" followed by a recognised level. */
  predicate IsRanking(r: string) {
    |r| > 3 && r[..3] == "DPF" && IsLevel(r[3..])
  }

  /** The recognised numbers of `nums`, in order, each turned into a ranking;
      the others are dropped. */
  function Rankings(nums: seq<string>): (r: seq<string>)
    ensures forall i :: 0 <= i < |r| ==> IsRanking(r[i])
    ensures |r| <= |nums|
  {
    if nums == [] then []
    else
      var rest := Rankings(nums[1..]);
      if IsLevel(nums[0]) then
        assert ("DPF" + nums[0])[3..] == nums[0];
        ["DPF" + nums[0]] + rest
      else rest
  }

  /** The rankings are exactly "DPF" followed by one of the numbers that is
      a level. */
  lemma {:induction false} RankingsMembers(nums: seq<string>, x: string)
    ensures x in Rankings(nums) <==> |x| > 3 && x[..3] == "DPF" && x[3..] in nums && IsLevel(x[3..])
  {
    if nums != [] {
      RankingsMembers(nums[1..], x);
      assert nums == [nums[0]] + nums[1..];
      if |x| > 3 && x[..3] == "DPF" {
        assert x == "DPF" + x[3..];
      }
      assert ("DPF" + nums[0])[..3] == "DPF" && ("DPF" + nums[0])[3..] == nums[0];
    }
  }


  datatype Gender = Herrer | Damer | Mix | Drenge | Piger

  function Label(g: Gender): string {
    match g
    case Herrer => "Herrer"
    case Damer => "Damer"
    case Mix => "Mix"
    case Drenge => "Drenge"
    case Piger => "Piger"
  }

  /** The whole words, in any case, that name each gender. */
  const DameWords: seq<string> := ["damer", "dame", "dames", "damespeed"]
  const KvindeWords: seq<string> := ["kvinder", "kvinde"]

  function GenderPattern(g: Gender): WordPattern {
    match g
    case Herrer => WordPattern(["herrer", "herre"], Whole)
    case Damer => WordPattern(DameWords + KvindeWords, Whole)
    case Mix => WordPattern(["mix"], Whole)
    case Drenge => WordPattern(["drenge"], Whole)
    case Piger => WordPattern(["piger"], Whole)
  }

  /** The order in which the gender patterns are tried. */
  const GenderOrder: seq<Gender> := [Herrer, Damer, Mix, Drenge, Piger]

  /** The position of `g` in `GenderOrder`. */
  function Rank(g: Gender): (r: nat)
    ensures r < |GenderOrder| && GenderOrder[r] == g
  {
    match g
    case Herrer => 0
    case Damer => 1
    case Mix => 2
    case Drenge => 3
    case Piger => 4
  }

  datatype Youth = U12 | U14 | U16 | U18

  function YouthLabel(y: Youth): string {
    match y
    case U12 => "U12"
    case U14 => "U14"
    case U16 => "U16"
    case U18 => "U18"
  }

  /** `\bU(12|14|16|18)\b` with the `i` flag: the same strings as the four
      whole words below. */
  const YouthPattern := WordPattern(["u12", "u14", "u16", "u18"], Whole)

  /** `\b(herrer?|damer?|kvinder?|mix)(\d+)\b` with the `i` flag; the greedy
      optional letter makes the longer word the first alternative. */
  const ConcatPattern := WordPattern(["herrer", "herre", "damer", "dame", "kvinder", "kvinde", "mix"], Digits)

  /** The level numbers as whole words. The pattern has no `i` flag, which
      changes nothing for digits. */
  const StandalonePattern := WordPattern(Levels, Whole)

  /** The separators of a DPF list, `[/-]`. */
  const DpfSeps: seq<char> := ['/', '-']

  // ---------------------------------------------------------------------
  // Extractors
  // ---------------------------------------------------------------------

  /** `venteliste` anywhere, or `waiting`, optional whitespace, `list`, in any case. */
  predicate IsWaitingList(name: string) {
    ContainsFolded(name, "venteliste") || ContainsSpaced(name, "waiting", "list")
  }

  /** `GenderOrder` lists every gender once. */
  lemma RankOfOrder(k: nat)
    requires k < |GenderOrder|
    ensures Rank(GenderOrder[k]) == k
  {
    if k == 0 {} else if k == 1 {} else if k == 2 {} else if k == 3 {} else {}
  }

  /** The first gender from position `k` of `GenderOrder` on whose pattern
      matches somewhere in `name`. */
  function FirstGender(name: string, k: nat): (r: Option<Gender>)
    requires k <= |GenderOrder|
    ensures r.Some? ==> k <= Rank(r.value) && FirstWord(GenderPattern(r.value), false, name).Some?
    ensures r.Some? ==> forall h :: k <= Rank(h) < Rank(r.value) ==> FirstWord(GenderPattern(h), false, name).None?
    ensures r.None? <==> forall h :: k <= Rank(h) ==> FirstWord(GenderPattern(h), false, name).None?
    decreases |GenderOrder| - k
  {
    if k == |GenderOrder| then None
    else
      var g := GenderOrder[k];
      RankOfOrder(k);
      if FirstWord(GenderPattern(g), false, name).Some? then Some(g)
      else FirstGender(name, k + 1)
  }

  /** The gender named in `name`: the first pattern, in the order Herrer,
      Damer, Mix, Drenge, Piger, that matches a whole word. */
  function ExtractGender(name: string): (r: Option<Gender>)
    ensures r.Some? ==> FirstWord(GenderPattern(r.value), false, name).Some?
    ensures r.Some? ==> forall h :: Rank(h) < Rank(r.value) ==> FirstWord(GenderPattern(h), false, name).None?
    ensures r.None? <==> forall h :: FirstWord(GenderPattern(h), false, name).None?
  {
    FirstGender(name, 0)
  }

  /** "U" followed by two digits folds to "u" and the same digits. */
  lemma FoldYouth(a: char, b: char)
    requires IsDigit(a) && IsDigit(b)
    ensures Fold(['U', a, b]) == ['u', a, b]
  {
    FoldAll(['U', a, b]);
  }

  function YouthOfWord(w: string): (r: Option<Youth>)
    ensures r.Some? ==> w == Fold(YouthLabel(r.value))
  {
    FoldYouth('1', '2');
    FoldYouth('1', '4');
    FoldYouth('1', '6');
    FoldYouth('1', '8');
    if w == "u12" then Some(U12)
    else if w == "u14" then Some(U14)
    else if w == "u16" then Some(U16)
    else if w == "u18" then Some(U18)
    else None
  }

  /** The youth age named in `name`, from its first `U12`, `U14`, `U16` or
      `U18` whole word, in any case. */
  function ExtractYouthAge(name: string): (r: Option<Youth>)
    ensures r.Some? <==> FirstWord(YouthPattern, false, name).Some?
    ensures r.Some? ==> FirstWord(YouthPattern, false, name).value.word == Fold(YouthLabel(r.value))
  {
    var h := FirstWord(YouthPattern, false, name);
    if h.Some? then YouthOfWord(h.value.word) else None
  }

  /** The recognised levels of every `DPF` tag of `name`, in written order. */
  function ExtractDpfLevels(name: string): (r: seq<string>)
    ensures forall i :: 0 <= i < |r| ==> IsRanking(r[i])
  {
    Rankings(TagListScan(false, name, "dpf", DpfSeps))
  }

  /** The recognised levels of every parenthesised dash list of `name`. */
  function ExtractDashLevels(name: string): (r: seq<string>)
    ensures forall i :: 0 <= i < |r| ==> IsRanking(r[i])
  {
    Rankings(ParenListScan(name, '-'))
  }

  /** The gender that the lower-cased word of a concatenated match names. */
  function ConcatGender(w: string): Option<Gender> {
    if |w| >= 5 && w[..5] == "herre" then Some(Herrer)
    else if (|w| >= 4 && w[..4] == "dame") || (|w| >= 6 && w[..6] == "kvinde") then Some(Damer)
    else if w == "mix" then Some(Mix)
    else None
  }

  /** The gender and ranking of a concatenated match, when its gender word
      is recognised and its number is a level. */
  function ConcatOfHit(h: Option<Hit>): (r: Option<(Gender, string)>)
    ensures r.Some? ==> IsRanking(r.value.1)
    ensures r.Some? ==> h.Some? && r.value.1 == "DPF" + h.value.digits && ConcatGender(h.value.word) == Some(r.value.0)
  {
    if h.Some? then
      var g := ConcatGender(h.value.word);
      if g.Some? && IsLevel(h.value.digits) then
        assert ("DPF" + h.value.digits)[3..] == h.value.digits;
        Some((g.value, "DPF" + h.value.digits))
      else None
    else None
  }

  /** A gender word and a level written together, such as "Herre50". Only
      the first such word of `name` is examined: when its number is not a
      recognised level, there is no result. */
  function ExtractConcatenated(name: string): (r: Option<(Gender, string)>)
    ensures r.Some? ==> IsRanking(r.value.1)
    ensures r.Some? ==> var h := FirstWord(ConcatPattern, false, name);
      h.Some? && r.value.1 == "DPF" + h.value.digits && ConcatGender(h.value.word) == Some(r.value.0)
  {
    ConcatOfHit(FirstWord(ConcatPattern, false, name))
  }

  /** A lone level number written without "DPF". It counts only when no DPF
      tag gave a recognised level and exactly one level word occurs. */
  function ExtractStandaloneLevels(name: string): (r: seq<string>)
    ensures |r| <= 1
    ensures r != [] ==> ExtractDpfLevels(name) == [] && IsRanking(r[0])
    ensures r != [] <==> ExtractDpfLevels(name) == [] && |AllWords(StandalonePattern, false, name)| == 1
    ensures r != [] ==> r[0] == "DPF" + AllWords(StandalonePattern, false, name)[0].word
  {
    if ExtractDpfLevels(name) != [] then []
    else
      var hits := AllWords(StandalonePattern, false, name);
      if |hits| == 1 then
        assert ("DPF" + hits[0].word)[3..] == hits[0].word;
        ["DPF" + hits[0].word]
      else []
  }

  /** The first DPF level of `name`, else its standalone level. */
  function ExtractDpfLevel(name: string): (r: Option<string>)
    ensures r.Some? ==> IsRanking(r.value)
    ensures ExtractDpfLevels(name) != [] ==> r == Some(ExtractDpfLevels(name)[0])
    ensures ExtractDpfLevels(name) == [] && ExtractStandaloneLevels(name) != [] ==>
      r == Some(ExtractStandaloneLevels(name)[0])
    ensures r.None? <==> ExtractDpfLevels(name) == [] && ExtractStandaloneLevels(name) == []
  {
    var levels := ExtractDpfLevels(name);
    if |levels| > 0 then Some(levels[0])
    else
      var standalone := ExtractStandaloneLevels(name);
      if |standalone| > 0 then Some(standalone[0]) else None
  }

  // ---------------------------------------------------------------------
  // Series synthesis
  // ---------------------------------------------------------------------

  datatype Series = Series(name: string, ranking: Option<string>, category: string)

  datatype Classification = Classification(isWaitingList: bool, series: seq<Series>)

  /** The gender label, followed by the youth age when there is one. */
  function Category(g: Gender, y: Option<Youth>): string {
    if y.Some? then Label(g) + " " + YouthLabel(y.value) else Label(g)
  }

  /** The series record for a category and an optional ranking: its name is
      the category followed by the ranking. */
  function SeriesFor(g: Gender, y: Option<Youth>, ranking: Option<string>): Series {
    var cat := Category(g, y);
    match ranking
    case Some(l) => Series(cat + " " + l, Some(l), cat)
    case None => Series(cat, None, cat)
  }

  /** A series that the classifier can emit: a ranking, or else a youth age. */
  predicate Emittable(g: Gender, y: Option<Youth>, ranking: Option<string>) {
    if ranking.Some? then IsRanking(ranking.value) else y.Some?
  }

  /** The gender and levels that the extraction cascade settles on: DPF tags
      if they give any level, else the first concatenated word, else
      parenthesised dash lists, else a lone standalone level; a gender found
      by `ExtractGender` wins over the concatenated one, and levels without
      any gender default to Herrer. */
  function Cascade(name: string): (r: (Option<Gender>, seq<string>))
    ensures forall i :: 0 <= i < |r.1| ==> IsRanking(r.1[i])
    ensures r.1 != [] ==> r.0.Some?
    ensures ExtractDpfLevels(name) != [] ==> r.1 == ExtractDpfLevels(name)
    ensures ExtractDpfLevels(name) == [] && ExtractConcatenated(name).Some? ==>
      r.1 == [ExtractConcatenated(name).value.1]
    ensures ExtractDpfLevels(name) == [] && ExtractConcatenated(name).None? && ExtractDashLevels(name) != [] ==>
      r.1 == ExtractDashLevels(name)
    ensures ExtractDpfLevels(name) == [] && ExtractConcatenated(name).None? && ExtractDashLevels(name) == [] ==>
      r.1 == ExtractStandaloneLevels(name)
    ensures ExtractGender(name).Some? ==> r.0 == ExtractGender(name)
    ensures ExtractGender(name).None? && ExtractDpfLevels(name) == [] && ExtractConcatenated(name).Some? ==>
      r.0 == Some(ExtractConcatenated(name).value.0)
    ensures r.0.Some? ==> ExtractGender(name).Some? || r.1 != []
    ensures ExtractGender(name).None? && (ExtractDpfLevels(name) != [] || ExtractConcatenated(name).None?) && r.1 != [] ==>
      r.0 == Some(Herrer)
  {
    var g0 := ExtractGender(name);
    var dpf := ExtractDpfLevels(name);
    var c := if dpf == [] then ExtractConcatenated(name) else None;
    var g1 := if c.Some? && g0.None? then Some(c.value.0) else g0;
    var l2 := if c.Some? then [c.value.1] else dpf;
    var l3 := if l2 == [] then ExtractDashLevels(name) else l2;
    var l4 := if l3 == [] then ExtractStandaloneLevels(name) else l3;
    var g := if l4 != [] && g1.None? then Some(Herrer) else g1;
    (g, l4)
  }

  /** One series per level, in level order; with no level, the youth-only
      series when there is a youth age; nothing without a gender. */
  function Synthesize(g: Option<Gender>, y: Option<Youth>, levels: seq<string>): (r: seq<Series>)
    ensures g.None? ==> r == []
    ensures g.Some? && levels != [] ==>
      |r| == |levels| && forall i :: 0 <= i < |levels| ==> r[i] == SeriesFor(g.value, y, Some(levels[i]))
    ensures g.Some? && levels == [] ==> r == (if y.Some? then [SeriesFor(g.value, y, None)] else [])
  {
    if g.None? then []
    else if levels != [] then seq(|levels|, i requires 0 <= i < |levels| => SeriesFor(g.value, y, Some(levels[i])))
    else if y.Some? then [SeriesFor(g.value, y, None)]
    else []
  }

  /** The classification of one class name. */
  function NormalizeClassName(name: string): (r: Classification)
    ensures r.isWaitingList == IsWaitingList(name)
    ensures r.isWaitingList ==> r.series == []
    ensures !r.isWaitingList ==> r.series == Synthesize(Cascade(name).0, ExtractYouthAge(name), Cascade(name).1)
  {
    if IsWaitingList(name) then Classification(true, [])
    else
      var c := Cascade(name);
      var series := Synthesize(c.0, ExtractYouthAge(name), c.1);
      Classification(false, series)
  }
}
