# Tournament class normalization, modelled in Dafny

The tournament planner collects padel tournaments and lists them by city. Its
core does four jobs:

- It classifies free-text tournament class names into normalized series. For
  example, "Herre50 FTM" becomes the series "Herrer DPF50" and "Tilmelding,
  herrer (200-100)" becomes "Herrer DPF200" and "Herrer DPF100".
- It merges the series of an event, and of the whole corpus, by name, sums
  their player counts and sorts the result.
- It normalizes city names through an alias table and groups events by the
  canonical city.
- It derives the web page's configuration: the categories, the rankings and
  the coordinates of every city.

This project restates those operations as pure Dafny functions and proves
what they promise.

Layout, one module per file:

- `Base`, `Assoc`, `Chars`, `Sorting`: shared vocabulary.
  - `Option` stands for JavaScript's `null`/`undefined`.
  - Insertion-ordered entry lists stand for objects and `Map`s.
  - ASCII case folding, the `\s` class and `trim`.
  - A stable sort, with JavaScript's default string order (UTF-16 code
    units) and the numeric order of rankings.
- `Regex`: hand-written matchers with the semantics of the classifier's
  JavaScript regular expressions.
  - `\b` is decided by whether the previous character is a word character.
  - A global `exec` loop becomes a left-to-right scan.
- `TokenView`: an independent description of the word-bounded patterns
  through the tokens of a name, its maximal runs of `[A-Za-z0-9_]`. It proves
  the positional matchers equal to it.
- `Classify`: the extractors, the level cascade, series synthesis and
  `normalizeClassName`.
- `ClassifyTokens`, `ClassifyScan`, `ClassifyIdem`: what the extractors mean.
  - The extractors restated through tokens.
  - Round trips for written DPF and dash lists, and the waiting-list markers.
  - Idempotence: the name of every emitted series classifies back to exactly
    that series.
- `Events`, `Stats`: per-class and per-event normalization, the corpus
  collector and the statistics.
- `LocationConfig`, `NormalizeLocations`, `Aggregate`, `WebData`,
  `FetchLocations`:
  - the alias table and `normalizeCity`;
  - merging the geocoded locations;
  - grouping events by city and file names;
  - the web data;
  - the list of cities to geocode.

`localeCompare(…, 'da')` is taken as a comparator parameter `loc`; the lemmas
about sorted output assume only that it is a consistent three-way comparison.

The model follows the code where it differs from the documented behaviour:

- A youth age without any gender gives no series. The youth-only series is
  built inside the `if (gender)` block (src/normalizeClasses.js:206-227).
- The standalone-number fallback is skipped only when a DPF tag gave a
  *recognised* level. `extractStandaloneLevels` tests `extractDpfLevels(name)`,
  which keeps only listed levels (src/normalizeClasses.js:143-146). So in
  "DPF30 100" the standalone "100" is taken.
- Only the first concatenated gender-and-number word is examined. When its
  number is not a level, the step yields nothing, even if a later word would
  qualify (src/normalizeClasses.js:95-116).
- The classifier is total over strings, but a class whose `name` is missing
  makes `name.match` throw. The model takes `name` as a string.
- src/normalizeLocations.js:2 imports `getCanonicalMappings`, which
  src/locationConfig.js does not define. It is never called, so it has no
  effect.

## Model

| member | source | states |
|---|---|---|
| Classify.Rankings | src/normalizeClasses.js:55-59 | every element is "DPF" followed by a recognised level, and there are no more rankings than numbers |
| Classify.RankingsMembers | src/normalizeClasses.js:55-59 | a string is among the rankings of a number list exactly when it is "DPF" followed by one of the numbers that is a recognised level |
| Classify.FirstGender | src/normalizeClasses.js:26-31 | the first gender, from a given position of the pattern order on, whose pattern matches; none exactly when no later pattern matches |
| Classify.ExtractGender | src/normalizeClasses.js:25-32 | a result's pattern matches and no pattern earlier in the order Herrer, Damer, Mix, Drenge, Piger matches; no result exactly when no pattern matches |
| Classify.YouthOfWord | src/normalizeClasses.js:37 | a recognised matched word is the folded label of the age returned |
| Classify.ExtractYouthAge | src/normalizeClasses.js:34-40 | an age is found exactly when the youth pattern matches, and the matched word is that age's label up to case |
| Classify.ExtractDpfLevels | src/normalizeClasses.js:47-64 | every level found is a ranking ("DPF" and a recognised level) |
| Classify.ExtractDashLevels | src/normalizeClasses.js:71-87 | every level found is a ranking |
| Classify.ConcatOfHit | src/normalizeClasses.js:98-114 | a result carries the gender the matched word names and "DPF" plus the matched digits, which form a ranking |
| Classify.ExtractConcatenated | src/normalizeClasses.js:94-117 | a result comes from the first concatenated match: its gender word's gender and "DPF" plus its digits, a ranking |
| Classify.ExtractStandaloneLevels | src/normalizeClasses.js:141-160 | at most one level; one exactly when no DPF tag gave a level and the global level scan found exactly one match, and it is "DPF" plus that match |
| Classify.ExtractDpfLevel | src/normalizeClasses.js:125-133 | the first DPF level when there is one, otherwise the standalone level; nothing exactly when both are empty |
| Classify.Cascade | src/normalizeClasses.js:174-202 | levels come from the first non-empty step of DPF tags, concatenated word, dash lists, standalone number; the extracted gender wins over the concatenated one; levels without a gender default to Herrer; a gender is present whenever levels are |
| Classify.Synthesize | src/normalizeClasses.js:204-227 | no gender gives nothing; with levels, one series per level in level order; without levels, the youth-only series exactly when there is a youth age |
| Classify.NormalizeClassName | src/normalizeClasses.js:167-233 | a waiting list gives no series; otherwise the series synthesized from the cascade's gender and levels and the youth age |
| Regex.AltsAt | src/normalizeClasses.js:6-18 | the alternative that matches is the first one, in pattern order, that matches at this position |
| Regex.DigitListEndsWithDigit | src/normalizeClasses.js:16 | a greedy list of numbers ends with a digit |
| Regex.TagListAtEndsWithDigit | src/normalizeClasses.js:16 | a match of the DPF pattern ends with a digit, a word character, which is where the global loop resumes |
| TokenView.Tokens | src/normalizeClasses.js:6-18 | every token is a non-empty run of word characters |
| TokenView.FirstWordIsFirstToken | src/normalizeClasses.js:6-18 | for patterns of lower-case word alternatives, the leftmost positional match is the match on the first matching token |
| TokenView.AllWordsAreAllTokens | src/normalizeClasses.js:18 | the global exec loop finds exactly the matches on matching tokens, in order |
| TokenView.WholeTokenHit | src/normalizeClasses.js:6-18 | a whole-word pattern matches a token exactly when the folded token is one of its alternatives |
| ClassifyTokens.GenderMatchIffNamed | src/normalizeClasses.js:6-12 | a gender pattern matches exactly when some token, up to case, is one of its words |
| ClassifyTokens.ExtractGenderByTokens | src/normalizeClasses.js:25-32 | the gender found is g exactly when a token names g and no token names a gender earlier in the order |
| ClassifyTokens.ExtractGenderNoneByTokens | src/normalizeClasses.js:25-32 | no gender is found exactly when no token names any gender |
| ClassifyTokens.ExtractYouthByTokens | src/normalizeClasses.js:15 | the youth age is read off the first token that is U12, U14, U16 or U18 in any case |
| ClassifyTokens.YouthOfLabel | src/normalizeClasses.js:15 | each age label, folded, is a youth alternative that maps back to that age |
| ClassifyTokens.StandaloneTokenHit | src/normalizeClasses.js:18 | a token is a standalone match exactly when it is a level number, and the match is the token itself |
| ClassifyTokens.ExtractStandaloneByTokens | src/normalizeClasses.js:141-160 | the standalone level is "DPF" plus the only level-number token, when there is exactly one and no DPF tag gave a level; otherwise none |
| ClassifyTokens.ExtractConcatenatedByTokens | src/normalizeClasses.js:94-117 | the concatenated result is read off the first token of the form gender word plus digits |
| ClassifyTokens.ConcatTokenShape | src/normalizeClasses.js:14 | a token matches alternative w exactly when, folded, it is w followed by a non-empty run of digits |
| ClassifyScan.RankingsAppend | src/normalizeClasses.js:55-59 | the rankings of a concatenation are the rankings of each part, in order |
| ClassifyScan.DpfListRoundTrip | src/normalizeClasses.js:47-64 | a DPF tag in any case, any spacing, and numbers joined by / or - reads back as the recognised levels of those numbers in written order, followed by the levels of whatever comes after a space |
| ClassifyScan.DashListRoundTrip | src/normalizeClasses.js:71-87 | two or more numbers joined by - in parentheses read back as their recognised levels in written order, followed by the dash levels of the rest |
| ClassifyScan.DashLevelsNeedParen | src/normalizeClasses.js:17 | text without an opening parenthesis has no dash list |
| ClassifyScan.WaitingListWord | src/normalizeClasses.js:19-23 | "venteliste" in any case anywhere marks a waiting list |
| ClassifyScan.WaitingListSpaced | src/normalizeClasses.js:19-23 | "waiting", any whitespace, then "list", in any case, anywhere, marks a waiting list |
| ClassifyScan.NotWaitingList | src/normalizeClasses.js:19-23 | a name with no v and no w in either case is never a waiting list |
| ClassifyIdem.RankedName | src/normalizeClasses.js:167-214 | "Gender DPFn" is not a waiting list and has that gender, no youth age and exactly that one ranking |
| ClassifyIdem.YouthRankedName | src/normalizeClasses.js:167-214 | "Gender Uxx DPFn" is not a waiting list and has that gender, that youth age and exactly that one ranking |
| ClassifyIdem.YouthName | src/normalizeClasses.js:167-226 | "Gender Uxx" is not a waiting list, has that gender and youth age, and no DPF, concatenated, dash or standalone level |
| ClassifyIdem.EmittedNameIsFixed | src/normalizeClasses.js:204-232 | classifying the name of a ranked or youth-only series (gender, optional youth age, recognised ranking; or gender and youth age) gives exactly that one series, not as a waiting list |
| ClassifyIdem.EmittedSeriesFixed | src/normalizeClasses.js:167-233 | every series that classifying any name returns classifies back to exactly that one series, not as a waiting list |
| Events.NormalizeClass | src/normalizeClasses.js:240-259 | a class is dropped exactly when it is a waiting list; a kept class is projected onto its id, name and player count (a fetch error message is dropped), is unknown exactly when it has no series, and carries one series per classified series with the class's player count |
| Events.SumFromIsTotal | src/normalizeClasses.js:325-331 | the merged player count is absent when every contribution is absent, and otherwise the sum of the present ones |
| Events.FindByName | src/normalizeClasses.js:319-324 | a found series has the name and is in the list; nothing is found exactly when no series has the name |
| Events.MergeIntoNames | src/normalizeClasses.js:318-333 | merging keeps the names present and appends the new names in order of first occurrence, each once |
| Events.MergeAllFind | src/normalizeClasses.js:299-333 | the merged map holds, for a name, nothing when no series has it, otherwise the first such series with the null-aware sum of all their counts |
| Events.MergeAllNames | src/normalizeClasses.js:299-333 | the merged series have each name once, in order of first occurrence |
| Events.MergeIntoAppend | src/normalizeClasses.js:419-443 | merging two runs one after the other is merging their concatenation |
| Events.SeriesCmpComparator | src/normalizeClasses.js:267-278 | category-then-ranking comparison is a consistent comparator when the locale comparison is one |
| Events.SortSeries | src/normalizeClasses.js:266-279 | the sorted series are a permutation of the input |
| Events.SortSeriesOrdered | src/normalizeClasses.js:266-279 | the sorted series ascend by category, and within a category by ranking number, an absent ranking counting as 0 |
| Events.NormalizeEventClasses | src/normalizeClasses.js:288-296 | the event's other fields are kept and all three lists are present; without classes all three are empty |
| Events.ClassFoldSpec | src/normalizeClasses.js:302-335 | the loop appends the kept classes and the unknown names in order, and merges every emitted series into the map |
| Events.NormalizeEventClassesSpec | src/normalizeClasses.js:288-343 | the classes are the non-waiting-list ones, the unknown names are those of kept classes without series, and the series are the sorted name-keyed merge of all emitted series |
| Events.NormalizeAllEvents | src/normalizeClasses.js:350-352 | one result per event, each that event normalized |
| Events.CollectUniqueSeries | src/normalizeClasses.js:419-446 | the result is a permutation of the name-keyed merge of the series of all events |
| Events.CollectUniqueSeriesSpec | src/normalizeClasses.js:419-446 | each name of the corpus occurs once, with the fields of its first occurrence and the null-aware sum of all its counts; no other name occurs |
| Stats.TallyGet | src/normalizeClasses.js:381-398 | a counter after tallying holds its old value plus the amounts of the series with that key |
| Stats.TallyKeys | src/normalizeClasses.js:381-398 | tallying appends the new keys in order of first occurrence |
| Stats.TallyMeaning | src/normalizeClasses.js:381-398 | a tally from scratch lists each present key once, in order of first occurrence, with the sum of the amounts of the series carrying it |
| Stats.UnknownFoldSpec | src/normalizeClasses.js:402-407 | every unknown name is counted, and each is listed once in order of first occurrence |
| Stats.EventFoldSpec | src/normalizeClasses.js:375-408 | the loop counts classes, tallies every series and lists the unknown names once each |
| Stats.GetStatisticsSpec | src/normalizeClasses.js:359-411 | the totals are the corpus's event, class, series and unknown counts and its player sum; the unknown names are listed once each; each counter is the tally of all series by its key |
| Stats.BySeriesNameSpec | src/normalizeClasses.js:381-386 | each series name is listed once, with the number of series of that name and the sum of their players |
| Stats.ByCategorySpec | src/normalizeClasses.js:388-392 | each non-empty category is listed once, with the number of series in it and the sum of their players |
| Stats.ByRankingSpec | src/normalizeClasses.js:394-398 | each non-empty ranking is listed once, with the number of series with it and the sum of their players |
| LocationConfig.LookupAliases | src/locationConfig.js:1-9 | looking a name up in the alias table is the case split of the table |
| LocationConfig.NormalizeCity | src/locationConfig.js:11-14 | a missing or empty name gives nothing |
| LocationConfig.NormalizeCityCases | src/locationConfig.js:11-23 | a present, non-empty name is trimmed; an alias gives its target, Denmark nothing, and any other name stays as trimmed |
| LocationConfig.NormalizeCityNull | src/locationConfig.js:11-29 | nothing comes out exactly for a missing or empty name and for a name whose trimmed form is filtered out |
| LocationConfig.FilteredFrom | src/locationConfig.js:26-28 | every name listed maps to nothing in the table |
| LocationConfig.FilteredLocationsValue | src/locationConfig.js:25-29 | the filtered names are exactly ["Denmark"] |
| LocationConfig.FilteredMember | src/locationConfig.js:25-29 | a name is filtered exactly when the table maps it to nothing |
| LocationConfig.TargetsAreCanonical | src/locationConfig.js:1-9 | no alias target is itself an alias, and none has surrounding whitespace |
| LocationConfig.NormalizeCityFixed | src/locationConfig.js:11-23 | a non-empty normalized name normalizes to itself |
| LocationConfig.BlankCity | src/locationConfig.js:12-16 | whitespace normalizes to the empty name, which itself normalizes to nothing |
| LocationConfig.CopenhagenExample | src/locationConfig.js:2 | " Copenhagen " normalizes to "København" |
| LocationConfig.DenmarkExample | src/locationConfig.js:8 | "Denmark" normalizes to nothing |
| Chars.Trim | src/locationConfig.js:16 | the result is a slice of the input with only whitespace cut on either side, and neither starts nor ends with whitespace |
| Chars.TrimIdempotent | src/locationConfig.js:16 | trimming twice is trimming once |
| NormalizeLocations.NormalizeLocationsData | src/normalizeLocations.js:6 | a missing locations field gives empty results |
| NormalizeLocations.NormalizeLocationsKeys | src/normalizeLocations.js:10-33 | the keys are the distinct canonical names of the entries that are not filtered out, each once |
| NormalizeLocations.NormalizeLocationsCoords | src/normalizeLocations.js:25-27 | each key holds the first truthy coordinates among the entries merged into it, a falsy value when none has any; other names hold nothing |
| NormalizeLocations.NormalizeLocationsMerged | src/normalizeLocations.js:18-23 | under a canonical name, the other names merged into it, in input order; no other keys |
| NormalizeLocations.NormalizeLocationsSorted | src/normalizeLocations.js:30-33 | the keys come out in the order of the locale comparison |
| NormalizeLocations.FilteredNamesVanish | src/normalizeLocations.js:11-16 | a filtered-out non-empty name is neither a key nor recorded as merged anywhere |
| NormalizeLocations.BlankLocation | src/normalizeLocations.js:11-26 | the empty name is filtered out, but a blank name becomes the key "" with its coordinates, recorded as merged from the blank name |
| NormalizeLocations.FoldCoords | src/normalizeLocations.js:25-27 | after the loop, a key holds what it held unless that was falsy, then the first truthy coordinates merged into it |
| NormalizeLocations.FoldMerged | src/normalizeLocations.js:18-23 | after the loop, a key's merged list is extended by the names merged into it, in order |
| Aggregate.SeriesNames | src/aggregateByLocation.js:15 | the names of the series, one per series, in order |
| Aggregate.FtmOnly | src/aggregateByLocation.js:17-19 | exactly the series whose sign-up type is FTM |
| Aggregate.FtmOnlyAppend | src/aggregateByLocation.js:17-19 | the filter of a concatenation is the concatenation of the filters, so the FTM entries keep their input order, each once |
| Aggregate.TransformEvent | src/aggregateByLocation.js:6-21 | the identifying fields are renamed unchanged; missing series give empty lists |
| Aggregate.TransformEventSeries | src/aggregateByLocation.js:15-19 | the series are the names of the event's series in order, the FTM series the names of those signed up as FTM, and every FTM series is a series |
| Aggregate.GroupFoldCounts | src/aggregateByLocation.js:35-51 | every event is either skipped or listed once, and the skipped count is the number of events without a key |
| Aggregate.GroupFoldFind | src/aggregateByLocation.js:44-50 | a group is extended by the listings of the events filed under its key, in order |
| Aggregate.GroupEventsSpec | src/aggregateByLocation.js:31-54 | each city's group holds, in input order, exactly the events filed under it with the city replaced; skipped counts the filtered events; skipped and listed add up to all events |
| Aggregate.MissingCityIsUnknown | src/aggregateByLocation.js:36-37 | an event without a city is filed under Unknown, never skipped |
| Aggregate.ReplaceSpecials | src/aggregateByLocation.js:59 | each special character becomes "-", every other stays |
| Aggregate.CollapseSpaces | src/aggregateByLocation.js:60 | the result has no whitespace, and every character in it is from the input or "_" |
| Aggregate.CollapseKeeps | src/aggregateByLocation.js:60 | text without whitespace is kept unchanged |
| Aggregate.CollapseSplit | src/aggregateByLocation.js:60 | a maximal run of whitespace after whitespace-free text becomes exactly one "_", the text before it kept and the rest collapsed in turn |
| Aggregate.SanitizeFilename | src/aggregateByLocation.js:56-61 | the file name has no whitespace and no special character |
| Aggregate.SanitizeWords | src/aggregateByLocation.js:56-61 | two clean words with whitespace between them give the file name word "_" word |
| Aggregate.SanitizeExample | src/aggregateByLocation.js:56-61 | "Århus N" gives the file name "Århus_N" |
| Aggregate.SanitizeClean | src/aggregateByLocation.js:56-61 | a name that is already clean is its own file name |
| Aggregate.SanitizeIdempotent | src/aggregateByLocation.js:56-61 | sanitizing twice is sanitizing once |
| WebData.ExtractUniqueCategories | src/buildWebData.js:9-17 | a category is listed exactly when it is a non-empty category of some series |
| WebData.UniqueCategoriesSpec | src/buildWebData.js:9-17 | the categories are listed without repeats, in default string order |
| WebData.ExtractUniqueRankings | src/buildWebData.js:19-31 | a ranking is listed exactly when it is a present, non-empty ranking of some series |
| WebData.UniqueRankingsSpec | src/buildWebData.js:19-31 | the rankings are listed without repeats, ascending by the number in them |
| WebData.BuildLocationsData | src/buildWebData.js:33-42 | the same names, in the same order |
| WebData.BuildLocationsFind | src/buildWebData.js:33-42 | each name maps to the latitude and longitude of what it mapped to |
| FetchLocations.ExtractUniqueCities | src/fetchLocations.js:54-62 | no events give no cities |
| FetchLocations.UniqueCitiesSpec | src/fetchLocations.js:54-62 | a city is listed exactly when it is non-empty and some event has it; no repeats; default string order |
| Sorting.Sort | src/normalizeClasses.js:267 | sorting returns a permutation of its input |
| Sorting.SortSorted | src/normalizeClasses.js:267 | with a consistent comparator the result is ordered |
| Sorting.SortUnique | src/buildWebData.js:16 | the distinct elements: the same members as the input |
| Sorting.SortUniqueSpec | src/buildWebData.js:16 | each element once, and ordered |
| Sorting.CodeUnitPreorder | src/fetchLocations.js:61 | the default string order is total and transitive |
| Sorting.CodeUnitLeBmp | src/fetchLocations.js:61 | below U+10000 the default string order is the order of the characters |
| Sorting.NumericPreorder | src/buildWebData.js:26-30 | ordering by the number in a string is total and transitive |
| Sorting.NumericKeyOfTag | src/normalizeClasses.js:275 | "DPF" followed by digits sorts by the value of those digits |
| Sorting.ComparatorPreorder | src/normalizeClasses.js:267-278 | a consistent three-way comparator gives a total, transitive "no later than" |
| Base.Dedup | src/buildWebData.js:10-16 | every element of the input, each once, and nothing else |

## Left out

- Reading and writing YAML and JSON files, the `main` functions, the geocoder and its delays, and console logging: these are I/O.
- JavaScript objects are modelled as insertion-ordered entry lists. Two things are left out: keys inherited from `Object.prototype` (such as "constructor"), and the rule that integer-like keys enumerate first in numeric order. Both need city or series names the data does not contain.
- `parseInt` of a ranking without digits gives NaN, and a comparator that returns NaN counts as "equal" to everything. That is not a consistent order, so the model keys such rankings by 0 instead.
- A class whose `name` is missing makes the JavaScript throw. The model takes the name as a string.
- Events.NormalizeClass: a class record is modelled with id, name, player count and the fetcher's `playerCountError`. The kept class drops `playerCountError`, as the code drops every field but the first three; other extra fields are not modelled.
- Player counts are unbounded integers; JavaScript's floating-point sums are not modelled.
- `null` and `undefined` are both `None`: no result depends on telling them apart.
- Coordinates are either present or falsy (`None`); which falsy value was stored is not kept.
- A `classes` field that is present but not an array counts as missing.
- Events.SortSeries: states the permutation and the order, not stability. Stability holds by construction (`Sorting.Sort` inserts each element ahead of the equal ones after it) but is not stated as a lemma.
- `localeCompare(…, 'da')` is a parameter: Danish collation itself is not modelled.
- `buildLocationsData` throws on a null coordinate entry; the model has a record for every name.
- LocationConfig.NormalizeCityFixed: stated only for non-empty results, because `normalizeCity` maps whitespace to "" and then "" to `null` (see LocationConfig.BlankCity).
- NormalizeLocations.FilteredNamesVanish: stated only for non-empty names, because a blank name is kept under the key "" (see NormalizeLocations.BlankLocation).
- Classify.ExtractDpfLevels and Classify.ExtractDashLevels: the contracts say only that every level is a ranking. What the scans read is stated by the round-trip lemmas ClassifyScan.DpfListRoundTrip and ClassifyScan.DashListRoundTrip, for the written list shapes.
- Mixing CommonJS `require` with the `export` syntax of src/locationConfig.js is a packaging matter and is not modelled.
