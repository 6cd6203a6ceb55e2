# Speech corpus analysis: a verified model

This project models, in Dafny, the data logic of a toolkit for analysing a
corpus of political speeches. At its centre is the **location pipeline**:

- An update script reads a stored location off each speech title. It takes the
  text after the last " in " and cuts off a " - Month D, YYYY" date.
- The script then standardises that text to one of four forms: "Unknown",
  "Abroad", a bare state code, or "<town>, <code>". It does this through a
  fixed, ordered chain of checks: overrides, comma/state suffix, international
  whole word, exact state, known city, New York City literal.
- The dashboard reads a stored location back. Its sidebar filter sorts it into
  region presets (coast, political colour, abroad). Its map reads the state
  for per-state counts.

Around that pipeline the model covers:

- **The speech corpus**: preprocessing of titles and dates, the selections
  that return a narrower corpus with the matching transcriptions, the date
  range, and the aggregation of transcription rows into one text per speech.
- **The corpus of other candidates**, with its per-speaker aggregation.
- **The speech page scraper's string logic**: header title and date, the
  statistics block, breadcrumb categories, and the candidate's transcript lines.
- **The word-index encoder** behind the language model: the vocabulary, the
  word-to-index map and its inverse, the encoded text, and the fixed-length
  training windows.
- **The counting behind the dashboard's charts**: top locations, speeches per
  month, whole-word frequencies per month, and speech length.

## Form of the model

- **Pure code is functions and lemmas**: the location functions, the region
  classifier, `get_state`, and the header and breadcrumb parsers.
- **In-place code is classes and methods**:
  - `SpeechCorpus` and `OtherCandidatesCorpus` are classes. Their selections
    return fresh corpora; `Preprocess` rewrites the speeches in place.
  - `TextDataset` is a class whose constructor sets up the fields and proves
    how they relate.
  - The chart functions that add columns to the caller's frame are methods of
    `ChartFrame`, which change its `rows`.
  - The loops of the sidebar filter, the statistics reader and the transcript
    collector are `while` loops with invariants. Each is proved against a
    specification function.
- **A data frame is the sequence of its rows.** `df[mask]` is `Frames.Select`;
  the element-wise `&` of masks is `Frames.And`; row predicates are
  `Frames.Where`.
- **Modules**: `Text` models Python's string methods on `seq<char>`. `Tally`
  models `Counter`, `value_counts` and `sorted(..., reverse=True)`. `Dates`
  models calendar dates and their "YYYY-MM" labels. `Ordering` models Python's `<` on strings and
  on key tuples, `sorted(set(...))`, and the sorted group keys of `groupby`.
- **Python behaviour modelled exactly:**
  - `split()` and `strip()` use the exact `str.isspace` set.
  - The regexes are written out as the searches they perform: the lazy group
    of `extract_raw_location`, `$` matching before a final line break, `.` not
    crossing a line break, `\b` and `\w` on ASCII.
  - Slicing and indexing keep Python's negative-index meaning.
  - Exceptions become the error half of a `Result`. `.group` on a failed match
    is `AttributeError`, a missing column is `ValueError` or `KeyError` as
    pandas or the code raises it, and an index past the end is `IndexError`.
    A `groupby(...).agg` given an empty dictionary fails when pandas
    concatenates no results (its `ValueError`, `NoObjectsToConcatenate`).
    For absent columns, pandas' `KeyError` names the missing keys sorted and
    deduplicated.

### Behaviour worth knowing (the model follows the code)

- "Paris" alone is not in the international list, so it standardises to
  "Unknown", not "Abroad". The comment at update_location.py:90-92 takes
  "Paris" to be caught by the international check.
- "Washington" alone returns "WA" at update_location.py:116, from the state
  table. The comment at :139-140 expects "Washington, DC", but the branch at
  :141-142 that returns it is dead (`LocationExamples.Washington`).
- The fallback regex at update_location.py:72 is reachable, as the comment
  at :71 supposes, though not for the reason it gives. A line break
  stops the first regex, because `.` does not cross it and `$` only matches
  before a *final* line break. `Locations.ExtractFallbackExample` exhibits
  "X -\nY". Without a line break the first regex always matches
  (`Locations.ExtractWithoutNewline`).
- The comma path re-joins the town segments with ", " after `split(',')` has
  kept the space before each, so "Fort Myers, Lee County, FL" becomes
  "Fort Myers,  Lee County, FL" with two spaces
  (`LocationExamples.TwoSegments`, `Locations.CommaStateTwoTowns`).
- New Hampshire is on none of the political lists, so it passes none of the
  three political presets.
- `get_state` accepts any two upper-case non-letters too: ",A" is returned as
  a state (`MapViz.CommaFallback`). It also accepts any two capitals after a
  comma, code or not.
- The sidebar's location pill can be deselected. The preset is then none of
  the listed ones, and `filter_location` reaches its final `return True`: it
  keeps exactly the locations with a detected state
  (`Filters.DeselectedPreset`).
- With no dated row at all, every date comparison fails, so the filtered
  frame is empty.
- `OtherCandidatesCorpus.get_full_speeches` has a missing-column check with
  no effect. A column the table lacks fails in the aggregation itself, which
  is modelled as `KeyError`.

## Model

| member | source | states |
|---|---|---|
| Locations.StateAbbrev | scripts/archive/update_location.py:8-26 | a lookup in the state table yields one of the 51 two-capital codes |
| Locations.StateName | scripts/archive/update_location.py:9-18 | each state name (and "District of Columbia") maps to a valid code |
| Locations.IsStateCode | scripts/archive/update_location.py:20-26 | every code is two upper-case ASCII letters |
| Locations.CityState | scripts/archive/update_location.py:120-134 | each known city maps to a valid state code |
| Locations.OverrideKey | scripts/archive/update_location.py:40-52 | the override keys in declaration order, each at least four characters long |
| Locations.IsIntlWord | scripts/archive/update_location.py:30-37 | every international name is at least four characters long |
| Locations.Clean | scripts/archive/update_location.py:69 | after strip and rstrip('.') no trailing period remains |
| Locations.ExtractCandidate | scripts/archive/update_location.py:63-74 | the two regex attempts give a cleaned text with no trailing period |
| Locations.ExtractRawLocation | scripts/archive/update_location.py:54-76 | None for a non-string title and for a title without " in "; otherwise a cleaned text without a trailing period |
| Locations.ExtractAfterLastIn | scripts/archive/update_location.py:58-61 | only the text after the last " in " matters, whatever precedes it |
| Locations.LazyEndWithoutNewline | scripts/archive/update_location.py:67 | without a line break the lazy group always finds a stop, the end anchor at the latest |
| Locations.ExtractWithoutNewline | scripts/archive/update_location.py:63-69 | without a line break the result is the cleaned text before the first date suffix, or the whole text when there is none |
| Locations.ExtractFallbackExample | scripts/archive/update_location.py:67-74 | "X -\nY" defeats the first regex and is answered by the fallback as "X" |
| Locations.FirstOverrideFrom | scripts/archive/update_location.py:86-88 | the first override, in declaration order, whose lower-cased key occurs in the lower-cased text; none when no key occurs |
| Locations.CommaState | scripts/archive/update_location.py:93-106 | the comma path, when it succeeds, yields "<town>, <code>" with a valid code; the lookups themselves are stated by `CommaStateOneTown` and `CommaStateTwoTowns` |
| Locations.CommaStateOneTown | scripts/archive/update_location.py:93-106 | for a comma-free stripped town and state: the state looked up as it is gives "<town>, <code>"; when that misses, the lookup without periods does; the path fails exactly when both miss |
| Locations.CommaStateTwoTowns | scripts/archive/update_location.py:93-106 | the same three cases for two town segments, which come back re-joined as "<town1>,  <town2>" with two spaces |
| Locations.TwoTownsSplit | scripts/archive/update_location.py:94 | "<a>, <b>, <c>" splits on commas into a, " b" and " c" |
| Locations.TwoTownsJoined | scripts/archive/update_location.py:96 | re-joining "a" and " b" with ", " and stripping gives "a,  b" |
| Locations.StripAfterSpace | scripts/archive/update_location.py:95 | a leading space does not change a strip |
| Locations.CommaPath | scripts/archive/update_location.py:93 | the comma path is only taken for text with a comma |
| Locations.Resolve | scripts/archive/update_location.py:85-153 | every result of the ordered checks is canonical: Unknown, Abroad, a code or a town form |
| Locations.ResolveComma | scripts/archive/update_location.py:93-106 | from the comma stage on, the result is canonical |
| Locations.ResolveAbroad | scripts/archive/update_location.py:108-113 | from the international stage on, the result is canonical |
| Locations.ResolveState | scripts/archive/update_location.py:115-117 | the later stages never yield "Abroad" |
| Locations.ResolveCity | scripts/archive/update_location.py:136-137 | a known city gives "<city>, <code>"; never "Abroad" |
| Locations.ResolveRest | scripts/archive/update_location.py:141-153 | the "Washington" and New York City literals, else "Unknown"; never "Abroad" |
| Locations.Standardize | scripts/archive/update_location.py:78-153 | the result is canonical, and "Unknown" for None and for "" |
| Locations.StandardizeWhitespace | scripts/archive/update_location.py:82-83 | only the whitespace-collapsed text matters |
| Locations.ResolveEmpty | scripts/archive/update_location.py:79-83 | all-whitespace text resolves to "Unknown" |
| Locations.FirstOverrideIs | scripts/archive/update_location.py:86-88 | the first key that occurs, with no earlier key occurring, is the override chosen |
| Locations.OverridePrecedence | scripts/archive/update_location.py:85-88 | when override j is the first whose key occurs (ignoring case), its value is the result whatever else the text holds |
| Locations.StandardizeOverride | scripts/archive/update_location.py:83-88 | when an override is the first to match the collapsed text, `standardize_location` returns its value |
| Locations.NoOverrideFrom | scripts/archive/update_location.py:86-88 | no key occurring from index i on means no override from there |
| Locations.StandardizeNoOverride | scripts/archive/update_location.py:83-93 | single-spaced text with no override goes straight to the comma stage |
| Locations.CommaStateTownForm | scripts/archive/update_location.py:93-106 | the comma stage keeps "<town>, <code>" for a comma-free stripped town |
| Locations.TownFormFixedPoint | scripts/archive/update_location.py:83-106 | "<town>, <code>" with a valid code, a comma-free single-spaced town and no override key is standardised to itself |
| Locations.TownFormNotAbroad | scripts/archive/update_location.py:106 | a town form is never "Abroad" |
| Locations.ResolveAbroadIff | scripts/archive/update_location.py:85-113 | "Abroad" exactly when no override applies, the comma path fails and an international name occurs as a whole word |
| Locations.StandardizeAbroadIff | scripts/archive/update_location.py:78-113 | the same if-and-only-if for `standardize_location` on the collapsed text |
| Locations.WordInternational | scripts/archive/update_location.py:110-113 | on a single word, whole-word search is exact membership in the international set |
| Locations.ShortNoOverride | scripts/archive/update_location.py:86-88 | text shorter than every key hits no override |
| Locations.StateCodeFixedPoint | scripts/archive/update_location.py:116-117 | a bare state code is standardised to itself |
| Locations.SingleWord | scripts/archive/update_location.py:108-117 | a single override-free word is "Abroad" exactly when it is listed, and otherwise goes on to the state stage |
| Locations.ShortTextOverride | scripts/archive/update_location.py:40-52 | text of at most eight characters can only hit the "Lima" override |
| Locations.NoOverrideWithout | scripts/archive/update_location.py:40-52 | text with neither 'e' nor 'l' hits no override |
| LocationExamples.Texas | scripts/archive/update_location.py:116-117 | "Texas" gives "TX" |
| LocationExamples.Indiana | scripts/archive/update_location.py:108-117 | "Indiana" is not caught by "India" and gives "IN" |
| LocationExamples.Tokyo | scripts/archive/update_location.py:110-113 | "Tokyo" gives "Abroad" |
| LocationExamples.LowerTokyo | scripts/archive/update_location.py:112 | the international match is case-sensitive: "tokyo" gives "Unknown" |
| LocationExamples.AbroadAgain | scripts/archive/update_location.py:108-153 | standardising "Abroad" again gives "Unknown" |
| LocationExamples.UnknownAgain | scripts/archive/update_location.py:153 | "Unknown" is a fixed point |
| LocationExamples.Nyc | scripts/archive/update_location.py:143-144 | "NYC" gives "New York, NY" |
| LocationExamples.Washington | scripts/archive/update_location.py:116-117 | "Washington" gives "WA", so lines 141-142 are never reached |
| LocationExamples.WhiteHouse | scripts/archive/update_location.py:42 | "the White House" gives "Washington, DC" |
| LocationExamples.ArlingtonTexas | scripts/archive/update_location.py:50 | the override fires before comma parsing: "Arlington, TX" gives "Arlington, VA" |
| LocationExamples.FixedPointExample | scripts/archive/update_location.py:93-106 | a concrete town form is its own standardisation |
| LocationExamples.IndianaPa | scripts/archive/update_location.py:90-106 | "Indiana, PA" stays "Indiana, PA": the comma stage answers before the "India" lookup |
| LocationExamples.ParisTx | scripts/archive/update_location.py:90-106 | "Paris, TX" stays "Paris, TX" |
| LocationExamples.AustinTexas | scripts/archive/update_location.py:93-106 | the comma path turns "Austin, Texas" into "Austin, TX" by the name lookup |
| LocationExamples.WashingtonDotted | scripts/archive/update_location.py:99-104 | "Washington, D.C." misses the table and the period-free retry gives "Washington, DC" |
| LocationExamples.TwoSegments | scripts/archive/update_location.py:93-106 | "Fort Myers, Lee County, FL" comes back as "Fort Myers,  Lee County, FL" |
| LocationExamples.NoStateAfterComma | scripts/archive/update_location.py:93-106 | "Paris, France" fails the comma path |
| LocationExamples.ShortStateWord | scripts/archive/update_location.py:116-117 | a short state word without "lima" gives its code |
| LocationExamples.ShortIntlWord | scripts/archive/update_location.py:110-113 | a short international word without "lima" gives "Abroad" |
| Filters.DetectState | src/app/filters.py:145-156 | a detected state is always one of the 51 codes |
| Filters.DetectStateComma | src/app/filters.py:148-152 | with a comma, the state is the last segment stripped and upper-cased, if that is a code |
| Filters.DetectStateNoComma | src/app/filters.py:154-156 | without a comma, the state is the whole upper-cased text, if that is a code |
| Filters.FilterLocation | src/app/filters.py:140-186 | a non-string location fails every preset |
| Filters.AbroadPreset | src/app/filters.py:160-164 | "Abroad" passes exactly when no state is found and the stripped text is not "Unknown" |
| Filters.UsPresetNeedsState | src/app/filters.py:166-167 | every other preset needs a detected state |
| Filters.GeographicDisjoint | src/app/filters.py:8-10 | the west, east and non-contiguous lists share no code |
| Filters.GeographicPartition | src/app/filters.py:166-178 | a location with a state passes exactly one geographic preset, and one without a state passes none |
| Filters.PoliticalDisjoint | src/app/filters.py:12-27 | the blue, red and swing lists share no code |
| Filters.NewHampshireUnlisted | src/app/filters.py:12-27 | NH is on none of the political lists |
| Filters.PoliticalCover | src/app/filters.py:12-36 | every code but NH is on a political list |
| Filters.GeographicListsAreCodes | src/app/filters.py:8-10 | every geographic entry is a valid code |
| Filters.PoliticalListsAreCodes | src/app/filters.py:12-27 | every political entry is a valid code |
| Filters.PoliticalPartition | src/app/filters.py:179-184 | a location with a state other than NH passes exactly one political preset; NH passes none |
| Filters.DeselectedPreset | src/app/filters.py:186 | a deselected pill keeps exactly the locations with a state |
| Filters.MinDay | src/app/filters.py:75 | the earliest date of the frame (attained and a lower bound), none when no row is dated |
| Filters.MaxDay | src/app/filters.py:76 | the latest date of the frame (attained and an upper bound), none when no row is dated |
| Filters.Start2014 | src/app/filters.py:84 | the day number of 2014-01-01 |
| Filters.StartDay | src/app/filters.py:78-84 | the start of each preset: the earliest date, 1095 days before the latest, or 2014-01-01 |
| Filters.AllTimeKeepsDated | src/app/filters.py:78-87 | "All Time" keeps exactly the dated rows |
| Filters.After2013Keeps | src/app/filters.py:83-87 | "After 2013" keeps exactly the rows dated 2014 or later |
| Filters.Last3YearsKeeps | src/app/filters.py:81-87 | "Last 3 Years" keeps exactly the rows at most 1095 days before the latest |
| Filters.CategoriesFromGroups | src/app/filters.py:105-107 | the gathered set is exactly the members of the chosen groups that exist |
| Filters.BannedWords | src/app/filters.py:67 | empty input gives no banned words |
| Filters.BannedWordsPieces | src/app/filters.py:67 | one banned word per comma piece, each the stripped piece, comma-free and strip-stable; the pieces rejoin to the input |
| Filters.SelectedCategories | src/app/filters.py:123 | the selection is the union of the groups' members and the individual choices |
| Filters.ApplyFilters | src/app/filters.py:87-190 | the mask built step by step selects exactly the rows passing the date, category and location tests, in order |
| Filters.RenderFilters | src/app/filters.py:67-190 | the filtered frame, the selected categories and the banned words that `render_filters` computes |
| Filters.FilteredRows | src/app/filters.py:190 | a row is kept exactly when it passes each of the three filters |
| MapViz.LastPieceAfter | src/app/map_viz.py:23-24 | the last comma piece is the text after the last comma |
| MapViz.GetState | src/app/map_viz.py:20-30 | None for a non-string; any state returned is two upper-case characters |
| MapViz.GetStateComma | src/app/map_viz.py:22-29 | with a comma, the stripped last piece if it is two upper-case characters, else the whole-text fallback |
| MapViz.GetStateNoComma | src/app/map_viz.py:28-30 | without a comma, only a two-character upper-case text is a state |
| MapViz.TownAndLetters | src/app/map_viz.py:22-26 | any two capitals after ", " are taken as the state, code or not |
| MapViz.CommaFallback | src/app/map_viz.py:22-29 | ",A" is returned as a state |
| MapViz.NoStateWithoutComma | src/app/map_viz.py:28-30 | a comma-free text not of length two has no state |
| MapViz.PlaceholdersHaveNoState | src/app/map_viz.py:19 | "Abroad" and "Unknown" have no state |
| MapViz.States | src/app/map_viz.py:33-36 | the state column of the mapped rows, at most one entry per row |
| MapViz.StatesCount | src/app/map_viz.py:43-44 | each state occurs in the column once per row with that state |
| MapViz.StatesLength | src/app/map_viz.py:36 | the column has one entry per row with a state |
| MapViz.StatesEmpty | src/app/map_viz.py:36-40 | the column is empty exactly when no row has a state |
| MapViz.RenderMap | src/app/map_viz.py:13-54 | no data for an empty frame; no map exactly when no row has a state; otherwise each state once, with a positive count equal to its rows, counts summing to the total in the title |
| Pipeline.SameCodes | src/app/filters.py:30-36 | the two code tables hold the same 51 codes |
| Pipeline.CodeOf | scripts/archive/update_location.py:106 | the code a standardised location names is a valid code |
| Pipeline.BareCodeRead | src/app/filters.py:154-156 | a bare code is read back as itself by the filter and by the map |
| Pipeline.TownFormMapped | src/app/map_viz.py:22-26 | the map reads "<town>, <code>" as its code |
| Pipeline.TownFormFiltered | src/app/filters.py:148-152 | the region filter reads "<town>, <code>" as its code |
| Pipeline.TownFormRead | src/app/map_viz.py:22-26 | both readers agree on a town form's code |
| Pipeline.StandardizedState | scripts/archive/update_location.py:78-153 | every standardised location other than Abroad and Unknown yields its code to `get_state` and to `filter_location`; those two yield none |
| Pipeline.AbroadPresetOnStandardized | src/app/filters.py:160-164 | the "Abroad" preset takes a standardised location exactly when it is "Abroad" |
| Pipeline.UnknownPassesNothing | src/app/data.py:49 | a missing location, stored as "Unknown", passes no preset |
| Corpus.RallyInTitle | src/filtering_corpus/speech_corpus.py:39-41 | a title containing "rally", in any case, is a rally |
| Corpus.RallyIgnoresCase | src/filtering_corpus/speech_corpus.py:40 | the rally test ignores case |
| Corpus.SearchIn | src/filtering_corpus/speech_corpus.py:49 | a match starts at an occurrence of " in " |
| Corpus.ExtractLocation | src/filtering_corpus/speech_corpus.py:46-52 | None for a non-string title and for a title without " in " |
| Corpus.ExtractWithoutNewline | src/filtering_corpus/speech_corpus.py:49-51 | on one line: the stripped text after the first " in ", up to the next " -" or the end |
| Corpus.Campaign | src/filtering_corpus/speech_corpus.py:57-67 | None exactly for a missing date; otherwise one of the four labels |
| Corpus.CampaignCycle | src/filtering_corpus/speech_corpus.py:61-66 | a speech is in a cycle exactly when its year is one of the cycle's years |
| Corpus.OtherCampaign | src/filtering_corpus/speech_corpus.py:67 | "Other" exactly for the years no cycle covers |
| Corpus.PreprocessStable | src/filtering_corpus/speech_corpus.py:30-69 | preprocessing twice changes nothing |
| Corpus.PreprocessKeeps | src/filtering_corpus/speech_corpus.py:30-69 | preprocessing keeps identity, title, date and categories, and extracts a location only when the column is missing |
| Corpus.Matching | src/filtering_corpus/speech_corpus.py:143-172 | the row predicate of `filter` holds exactly when every supplied key is met |
| Corpus.CampaignRalliesAsFilter | src/filtering_corpus/speech_corpus.py:107-111 | `get_campaign_rallies(c)` keeps the rows of `filter({'campaign': c, 'is_rally': True})` |
| Corpus.SelectionsAsFilter | src/filtering_corpus/speech_corpus.py:81-141 | each single selection is `filter` with its own key alone |
| Corpus.EmptyFilter | src/filtering_corpus/speech_corpus.py:154 | a filter with no keys keeps every row |
| Corpus.Between | src/filtering_corpus/speech_corpus.py:236-242 | the row test of `filter_date`: within both given bounds |
| Corpus.Ids | src/filtering_corpus/speech_corpus.py:185 | the ids of the kept speeches |
| Corpus.Restrict | src/filtering_corpus/speech_corpus.py:185-186 | exactly the transcriptions of kept speeches |
| Corpus.RestrictTwice | src/filtering_corpus/speech_corpus.py:174-188 | restricting a restricted table is restricting the original |
| Corpus.RangeInclusive | src/filtering_corpus/speech_corpus.py:239-242 | both date bounds are inclusive in calendar order |
| Corpus.FromYear | src/filtering_corpus/speech_corpus.py:254-256 | the row test of `remove_speeches_before`: dated in year y or later |
| Corpus.FromYearStart | src/filtering_corpus/speech_corpus.py:246-256 | starting on January 1st of y keeps exactly the speeches of year y or later |
| Corpus.Missing | src/filtering_corpus/speech_corpus.py:211 | exactly the requested columns the table lacks |
| Corpus.Texts | src/filtering_corpus/speech_corpus.py:216-218 | one joined text per requested column |
| Corpus.Merge | src/filtering_corpus/speech_corpus.py:218-221 | every merged row is a transcribed speech with its joined texts |
| Corpus.MergeKeepsTranscribed | src/filtering_corpus/speech_corpus.py:221 | the inner merge keeps, in order, exactly the speeches with a transcription |
| Corpus.SingleTranscript | src/filtering_corpus/speech_corpus.py:216 | a speech with one transcription row gets that row's text |
| Corpus.DefaultTextColumns | src/filtering_corpus/speech_corpus.py:201-206 | the default columns are "text" then "cleaned_transcription", those the table has |
| Corpus.ResolveColumns | src/filtering_corpus/speech_corpus.py:201-208 | one name becomes a one-element list; a list stays as given |
| Corpus.FullSpeeches | src/filtering_corpus/speech_corpus.py:190-223 | ValueError naming the requested columns the table lacks; with an empty column list the aggregation of an empty dictionary fails; otherwise the transcribed speeches in order, each with, for every requested column, its transcript cells joined by spaces |
| Corpus.DefaultsOkIff | src/filtering_corpus/speech_corpus.py:201-218 | without named columns, the call succeeds exactly when the table has "text" or "cleaned_transcription" |
| Corpus.PreprocessAll | src/filtering_corpus/speech_corpus.py:30-69 | every row goes through preprocessing |
| Corpus.SpeechCorpus.constructor | src/filtering_corpus/speech_corpus.py:7-28 | the paths, the preprocessed speeches and the transcriptions |
| Corpus.SpeechCorpus.Preprocess | src/filtering_corpus/speech_corpus.py:30-69 | the speeches are rewritten in place; nothing else changes |
| Corpus.SpeechCorpus.CreateFilteredCorpus | src/filtering_corpus/speech_corpus.py:174-188 | a fresh corpus with the same paths, the kept speeches and their transcriptions |
| Corpus.SpeechCorpus.Empty | src/filtering_corpus/speech_corpus.py:178 | an object with no rows yet |
| Corpus.SpeechCorpus.GetCampaign | src/filtering_corpus/speech_corpus.py:71-82 | the rows of that cycle |
| Corpus.SpeechCorpus.GetRallies | src/filtering_corpus/speech_corpus.py:84-95 | the rows with that rally flag |
| Corpus.SpeechCorpus.GetCampaignRallies | src/filtering_corpus/speech_corpus.py:97-111 | the rallies of that cycle |
| Corpus.SpeechCorpus.GetByLocation | src/filtering_corpus/speech_corpus.py:113-126 | case-insensitive containment on the location; a missing one never matches |
| Corpus.SpeechCorpus.GetByCategory | src/filtering_corpus/speech_corpus.py:128-141 | case-insensitive containment on the categories; a missing one never matches |
| Corpus.SpeechCorpus.Filter | src/filtering_corpus/speech_corpus.py:143-172 | narrowing key by key keeps exactly the rows meeting every supplied key, in order |
| Corpus.SpeechCorpus.FilterDate | src/filtering_corpus/speech_corpus.py:225-244 | OutOfBoundsDatetime exactly when a given bound lies outside 1677-09-22..2262-04-11; otherwise the rows within the given bounds, an absent bound imposing nothing |
| Corpus.SpeechCorpus.RemoveSpeechesBefore | src/filtering_corpus/speech_corpus.py:246-256 | the speeches from January 1st of the year on; for a four-digit year, OutOfBoundsDatetime exactly when its January 1st is outside the timestamp range; a parse error for any other year |
| Corpus.SpeechCorpus.GetFullSpeeches | src/filtering_corpus/speech_corpus.py:190-223 | the column list is built, checked, aggregated and merged as `FullSpeeches` says, empty-list error included |
| OtherCandidates.Groups | src/filtering_corpus/other_candidates.py:98 | the (speech, speaker) keys, each once, exactly those of the rows, ascending by speech id and then speaker as `groupby` sorts them |
| OtherCandidates.KeyLessStrictTotal | src/filtering_corpus/other_candidates.py:98 | ordering keys by speech id, then speaker, is a strict total order |
| OtherCandidates.KeyColumnMembers | src/filtering_corpus/other_candidates.py:98 | the key column holds exactly the keys of the rows |
| OtherCandidates.Aggregate | src/filtering_corpus/other_candidates.py:96-109 | KeyError for a missing column, naming each absent column once in ascending order; a failure for an empty column list; otherwise one row per key in ascending key order, with joined texts and the fixed compatibility columns |
| OtherCandidates.OneRowPerSpeech | src/filtering_corpus/other_candidates.py:98 | every (speech, speaker) pair of the table gets a row |
| OtherCandidates.CandidateRows | src/filtering_corpus/other_candidates.py:101-109 | after selecting a candidate, every row is that candidate's, titled with the name |
| OtherCandidates.OtherCandidatesCorpus.constructor | src/filtering_corpus/other_candidates.py:5-19 | the paths and the loaded table |
| OtherCandidates.OtherCandidatesCorpus.Empty | src/filtering_corpus/other_candidates.py:56 | an object with no rows yet |
| OtherCandidates.OtherCandidatesCorpus.CreateFilteredCorpus | src/filtering_corpus/other_candidates.py:52-60 | a fresh corpus with the same paths and the kept rows |
| OtherCandidates.OtherCandidatesCorpus.GetCandidate | src/filtering_corpus/other_candidates.py:21-38 | exactly that speaker's rows, in order, even when there are none |
| OtherCandidates.OtherCandidatesCorpus.GetKamala | src/filtering_corpus/other_candidates.py:40-44 | `get_candidate("Kamala Harris")`: that speaker's rows, with the same paths and columns |
| OtherCandidates.OtherCandidatesCorpus.GetBiden | src/filtering_corpus/other_candidates.py:46-50 | `get_candidate("Joe Biden")`: that speaker's rows, with the same paths and columns |
| OtherCandidates.OtherCandidatesCorpus.GetFullSpeeches | src/filtering_corpus/other_candidates.py:62-111 | the default or given columns aggregated as `Aggregate` says; the missing-column check has no effect |
| Decomposer.LineEnd | src/rollcall/speech_decomposer.py:5 | `.+` stops at the first line break |
| Decomposer.LastHyphenBefore | src/rollcall/speech_decomposer.py:5 | the last hyphen with a character before it, or none |
| Decomposer.Title | src/rollcall/speech_decomposer.py:2-6 | AttributeError exactly without a usable hyphen on the first line; otherwise the stripped text before the last one |
| Decomposer.DateStart | src/rollcall/speech_decomposer.py:11 | the leftmost hyphen followed by whitespace and a character |
| Decomposer.Date | src/rollcall/speech_decomposer.py:8-12 | AttributeError exactly without such a hyphen; otherwise the stripped rest of that line |
| Decomposer.TitleOfLine | src/rollcall/speech_decomposer.py:5 | on one line, the title is the text before the last hyphen |
| Decomposer.DateOfLine | src/rollcall/speech_decomposer.py:11 | on one line, the date is the text after the first hyphen and space |
| Decomposer.OneHyphen | src/rollcall/speech_decomposer.py:5-11 | "a- b" splits into title a and date b |
| Decomposer.TwoHyphens | src/rollcall/speech_decomposer.py:5-11 | "a- b- c" gives title "a- b" and date "b- c": the two overlap |
| Decomposer.LastBlock | src/rollcall/speech_decomposer.py:17-21 | the last block whose name contains the last name, or none |
| Decomposer.FirstNumber | src/rollcall/speech_decomposer.py:30 | the leftmost digit run, whole: no digit before it and none right after it; none exactly without a digit |
| Decomposer.Kind | src/rollcall/speech_decomposer.py:29-34 | sentences, then words, else seconds |
| Decomposer.Step | src/rollcall/speech_decomposer.py:28-34 | an entry sets the count its text names to its number and leaves the others; it fails without a digit |
| Decomposer.StatsOkIff | src/rollcall/speech_decomposer.py:28-34 | the loop succeeds exactly when every entry has a digit |
| Decomposer.LastEntryWins | src/rollcall/speech_decomposer.py:28-34 | a count is the number of the last entry of its kind |
| Decomposer.UnnamedCountEmpty | src/rollcall/speech_decomposer.py:22-24 | a count no entry names stays "" |
| Decomposer.StatsErrStays | src/rollcall/speech_decomposer.py:28-34 | an error stops the loop |
| Decomposer.BlockStats | src/rollcall/speech_decomposer.py:14-35 | AttributeError exactly when an entry of the last matching block has no digit; otherwise three counts, each the number in the last entry of its kind, "" for a kind no entry names; all "" without a matching block |
| Decomposer.StatsFields | src/rollcall/speech_decomposer.py:22-34 | each count is the number of the last entry of its kind, or "" when no entry names it |
| Decomposer.StatsErrIsAttribute | src/rollcall/speech_decomposer.py:30-34 | the only failure of the loop is `.group()` on a failed search |
| Decomposer.GetStats | src/rollcall/speech_decomposer.py:14-35 | the two loops compute `BlockStats` |
| Decomposer.Pieces | src/rollcall/speech_decomposer.py:40-41 | the stripped ">"-pieces of a breadcrumb |
| Decomposer.CleanedCategories | src/rollcall/speech_decomposer.py:37-42 | exactly the pieces of all breadcrumbs, each once |
| Decomposer.CategoriesClean | src/rollcall/speech_decomposer.py:41 | every category is stripped and free of ">" |
| Decomposer.OneCrumb | src/rollcall/speech_decomposer.py:40-41 | one breadcrumb gives its pieces |
| Decomposer.TwoCrumbs | src/rollcall/speech_decomposer.py:41 | two breadcrumbs give the union of their pieces |
| Decomposer.TwoLevelCrumb | src/rollcall/speech_decomposer.py:40-41 | "a>b" gives its two stripped parts |
| Decomposer.SharedCategoryOnce | src/rollcall/speech_decomposer.py:41 | a category under two breadcrumbs is listed once |
| Decomposer.SpokenBy | src/rollcall/speech_decomposer.py:53 | an entry is the candidate's when the speaker contains the full name |
| Decomposer.TimedText | src/rollcall/speech_decomposer.py:49-52 | [timestamp, text], with "" for a missing timestamp |
| Decomposer.Lines | src/rollcall/speech_decomposer.py:53 | one line per entry, in order |
| Decomposer.CandidateLines | src/rollcall/speech_decomposer.py:44-54 | exactly the candidate's entries as [timestamp, text], in page order |
| Decomposer.Listed | src/rollcall/speech_decomposer.py:52 | [speaker, timestamp, text] |
| Decomposer.KeptLinesAreCandidateLines | src/rollcall/speech_decomposer.py:53 | the comprehension over the listed triples gives the candidate's lines |
| Decomposer.GetCandidateTranscriptions | src/rollcall/speech_decomposer.py:44-54 | the loop and the comprehension compute `CandidateLines` |
| DataLoader.PySlice | src/nlp/data_loader.py:27 | Python slicing, with negative and out-of-range bounds |
| DataLoader.PyIndex | src/nlp/data_loader.py:28 | Python indexing: IndexError exactly outside -len..len-1 |
| DataLoader.LowerTexts | src/nlp/data_loader.py:14 | the non-missing texts, lower-cased |
| DataLoader.WordListOfTexts | src/nlp/data_loader.py:14-16 | the word list is the words of each text in turn |
| DataLoader.Vocabulary | src/nlp/data_loader.py:17-18 | no repeats, at most `max_vocab_size` entries, every entry a word of the text |
| DataLoader.MostFrequentKept | src/nlp/data_loader.py:18 | a word left out is no more frequent than any vocabulary word |
| DataLoader.VocabularyOrdered | src/nlp/data_loader.py:18 | counts are non-increasing along the vocabulary |
| DataLoader.VocabularyComplete | src/nlp/data_loader.py:18 | with room for all, every word is in the vocabulary |
| DataLoader.TiesKeepFirstSeen | src/nlp/data_loader.py:17-18 | among words of equal count, the vocabulary keeps a prefix of them in first-appearance order |
| DataLoader.WordToInt | src/nlp/data_loader.py:19 | the keys are exactly the vocabulary words |
| DataLoader.WordToIntPositions | src/nlp/data_loader.py:19 | `word_to_int[vocab[i]] == i` |
| DataLoader.MapsInverse | src/nlp/data_loader.py:19-20 | the two maps are inverse in both directions |
| DataLoader.IntToWordPositions | src/nlp/data_loader.py:20 | the keys are exactly 0..len(vocab)-1, and index i maps to `vocab[i]` |
| DataLoader.Encode | src/nlp/data_loader.py:21 | one code per word in the vocabulary |
| DataLoader.Known | src/nlp/data_loader.py:21 | the words in the vocabulary, in order |
| DataLoader.Decode | src/nlp/data_loader.py:20 | each code replaced by its word |
| DataLoader.EncodeBelow | src/nlp/data_loader.py:21 | every code is below len(vocab) |
| DataLoader.DecodeEncode | src/nlp/data_loader.py:19-21 | decoding the encoded text gives the word list restricted to the vocabulary |
| DataLoader.TextDataset.constructor | src/nlp/data_loader.py:8-21 | the text, words and vocabulary as derived, with every field relation holding |
| DataLoader.TextDataset.GetItem | src/nlp/data_loader.py:26-30 | IndexError exactly when the target index is out of range; a valid start gives a window of length L and its next code |
| DataLoader.GetVocabSize | src/nlp/data_loader.py:32-33 | the indices in use are exactly 0..n-1 |
| DataLoader.LengthCountsWindows | src/nlp/data_loader.py:23-28 | a start from 0 gives a window exactly when it is below `__len__` |
| DataLoader.WindowWords | src/nlp/data_loader.py:26-27 | a window decodes to consecutive in-vocabulary words of the text |
| Visualizations.PresentLocations | src/app/visualizations.py:53 | exactly the locations present |
| Visualizations.TopLocations | src/app/visualizations.py:53-54 | at most 15 locations, each once, with counts equal to their rows, positive, non-increasing |
| Visualizations.TopLocationsDominate | src/app/visualizations.py:53 | a location left out counts at most what any listed one counts |
| Visualizations.TopLocationsComplete | src/app/visualizations.py:53 | with 15 or fewer locations, all are listed |
| Visualizations.MonthLabel | src/app/visualizations.py:8 | the "YYYY-MM" label of a date, "NaT" for a missing one |
| Visualizations.LabelNotNaT | src/app/visualizations.py:8 | no date labels like a missing one |
| Visualizations.SameLabel | src/app/visualizations.py:8 | labels agree exactly for the same year and month |
| Visualizations.Labels | src/app/visualizations.py:8 | one label per row |
| Visualizations.WithMonths | src/app/visualizations.py:8 | each row gets its month label; nothing else changes |
| Visualizations.MonthCount | src/app/visualizations.py:9 | a month's size is the number of rows dated in it |
| Visualizations.UndatedCount | src/app/visualizations.py:9 | the "NaT" group counts the undated rows |
| Visualizations.MonthlySizes | src/app/visualizations.py:9 | each month label of the rows once, in ascending order, with its number of rows |
| Visualizations.MonthlyCountsSum | src/app/visualizations.py:9 | the monthly sizes sum to the number of rows |
| Visualizations.PaddedLess | src/app/visualizations.py:8 | zero-padded numbers of one width compare as strings as they do as numbers |
| Visualizations.MonthLabelsChronological | src/app/visualizations.py:8-9 | one month label sorts before another exactly when its month is earlier |
| Visualizations.NaTLast | src/app/visualizations.py:8-9 | the undated label sorts after every month label |
| Visualizations.MatchesSound | src/app/visualizations.py:31-32 | every counted position is a whole-word, case-insensitive match, and matches do not overlap |
| Visualizations.MatchesComplete | src/app/visualizations.py:31-32 | every occurrence is covered by a counted match |
| Visualizations.MatchesIgnoreCase | src/app/visualizations.py:31 | the scan ignores the case of the word |
| Visualizations.CountIgnoresCase | src/app/visualizations.py:31-32 | the count ignores the case of the word |
| Visualizations.CountsOf | src/app/visualizations.py:32 | one count per row |
| Visualizations.SetCounts | src/app/visualizations.py:32 | the column written into each row |
| Visualizations.MonthlySums | src/app/visualizations.py:33 | one sum per month label, in ascending label order, each the sum over that month's rows |
| Visualizations.SumOfOnes | src/app/visualizations.py:33 | summing ones per month counts the month's rows |
| Visualizations.WordTable | src/app/visualizations.py:33-37 | one row per month, in ascending label order, with its sum and the word |
| Visualizations.WithCounts | src/app/visualizations.py:30-32 | the count columns leave the texts as they are |
| Visualizations.TrackerStep | src/app/visualizations.py:30-37 | each tracked word appends its table |
| Visualizations.TrackerEntries | src/app/visualizations.py:30-40 | every entry names a tracked word, a month of the frame and that month's sum |
| Visualizations.WordCountOfJoin | src/app/visualizations.py:61 | n space-free words joined by spaces count n |
| Visualizations.CategoriesStr | src/app/visualizations.py:64 | a list joined with ", "; anything else as its string |
| Visualizations.WithWordCounts | src/app/visualizations.py:61 | each row gets its word count |
| Visualizations.CategoriesColumn | src/app/visualizations.py:64 | one category string per row |
| Visualizations.ChartFrame.constructor | src/app/visualizations.py:6 | the frame a chart is drawn from |
| Visualizations.ChartFrame.PlotTimeSeries | src/app/visualizations.py:6-9 | writes the month labels into the frame and returns the monthly sizes in ascending label order |
| Visualizations.ChartFrame.PlotWordFrequency | src/app/visualizations.py:20-37 | nothing without tracked words; KeyError for a missing column after the labels are written; otherwise the count columns and the tracker table |
| Visualizations.ChartFrame.PlotSpeechLength | src/app/visualizations.py:59-64 | KeyError for a missing column; otherwise the word counts written and the category strings returned |
| Text.CollapseIdempotent | scripts/archive/update_location.py:83 | collapsing whitespace twice changes nothing |
| Text.CollapseSingleSpaced | scripts/archive/update_location.py:83 | single-spaced text is unchanged by collapsing |
| Text.SplitJoin | src/app/filters.py:67 | splitting on a character and joining back gives the input |
| Text.StripIdempotent | src/app/filters.py:67 | stripping twice changes nothing |
| Ordering.LexLessTotal | src/filtering_corpus/other_candidates.py:98 | Python's string order is total on distinct strings |
| Ordering.LexLessTransitive | src/filtering_corpus/other_candidates.py:98 | Python's string order is transitive |
| Ordering.SortedDistinct | src/filtering_corpus/other_candidates.py:98 | under any strict total order, the elements of a list, each once, in ascending order |
| Ordering.InsertAscending | src/filtering_corpus/other_candidates.py:98 | inserting into an ascending list keeps it ascending and adds exactly the new element |
| Ordering.SortedStrings | src/app/visualizations.py:9 | the strings of a list, each once, in Python's ascending order |
| Ordering.LexLessStrictTotal | src/app/visualizations.py:9 | Python's string order is a strict total order |
| Ordering.LexLessConcat | src/app/visualizations.py:8-9 | strings whose first parts have one length compare by those parts first |
| Ordering.AscendingDistinct | src/filtering_corpus/other_candidates.py:98 | an ascending list repeats nothing |
| Ordering.LexLessIrreflexive | src/filtering_corpus/other_candidates.py:98 | no string is below itself |
| Text.WordsOfJoin | src/nlp/data_loader.py:15-16 | the words of space-joined texts are the words of each in turn |
| Tally.TallySum | src/nlp/data_loader.py:17 | the counts sum to the number of items |
| Tally.CountsOverCovering | src/app/visualizations.py:9 | over distinct keys that cover the items, each item is counted exactly once |
| Tally.SumOverCovering | src/app/visualizations.py:9 | per-key counts over distinct covering keys, in any order, sum to the number of items |
| Tally.TallyKeys | src/nlp/data_loader.py:17 | each item once, in first-appearance order |
| Tally.TallyPermutationEntries | src/nlp/data_loader.py:17 | any rearrangement of the tally pairs each word with its positive count |
| Tally.SortByCountSorted | src/nlp/data_loader.py:18 | the sort is non-increasing and keeps the keys |
| Tally.SortByCount | src/nlp/data_loader.py:18 | the sorted tally is a rearrangement of the tally |
| Tally.SortByCountStable | src/nlp/data_loader.py:18 | items of equal count keep their order |
| Tally.ValueCounts | src/app/map_viz.py:43 | each value once, with its count, non-increasing, summing to the number of items |
| Dates.OrdinalOrder | src/app/filters.py:87 | day numbers order dates as the calendar does |
| Dates.OnOrAfterYearStart | src/app/filters.py:84-87 | on or after January 1st exactly for that year or later |
| Dates.YearMonthRoundTrip | src/app/visualizations.py:8 | a month label reads back as its year and month |
| Dates.YearMonthSame | src/app/visualizations.py:9 | two dates share a label exactly in the same month |
| Frames.SelectMask | src/app/filters.py:190 | selecting with a predicate's mask is filtering by the predicate |
| Frames.SelectAnd | src/app/filters.py:126 | narrowing a mask by & is filtering by both predicates |
| Frames.WhereWhere | src/filtering_corpus/speech_corpus.py:154-170 | filtering twice is filtering once by the conjunction |

## Left out

- File and database I/O are left out: parquet reads and writes, path checks, `FileNotFoundError`, `save_sub_db`, and `update_speeches_location`. Tables are in-memory sequences passed to the constructors.
- Streamlit widgets, plotly figures, the map drawing and warnings are left out. The user's choices (presets, selected groups and categories, banned-word input) are parameters.
- The text-version selector of `render_filters` (filters.py:52-63) picks a widget option and is not modelled.
- The category groups table (category_mapping.py) is a parameter `groups`, not its literal contents.
- The BeautifulSoup lookups of the scraper are left out. The model starts from the already stripped texts they return.
- The torch tensor wrapping in `__getitem__` is left out. The window is returned as a list of codes.
- Full Unicode is left out: lower-casing, upper-casing (`upper()` in the state detection of the region filter), `isupper`, `\w`, `\d` and `\b` are ASCII only. `str.isspace` is modelled with its exact character set.
- Regex metacharacters in user-supplied input are treated literally. This covers `str.contains` in the corpus selections and the tracked words of the word counter.
- pandas `groupby` sorts its keys, and the model lists groups in that ascending order. OtherCandidates.Aggregate: speech ids are strings in the model, so keys are ordered by Python's string order on the id. A numeric `speech_id` column sorts numerically, and its missing ids are dropped by `groupby`; neither is modelled.
- `value_counts` leaves the order of equal counts unspecified. The model uses a stable order, and only the vocabulary's tie property relies on it, because `Counter` plus a stable `sorted` guarantees it there.
- `list(set(...))` in the category flattening has no defined order. It is modelled as a set.
- Column-name collisions are left out: `count_<word>` over an existing column, the same word tracked twice, and merge suffixes.
- pandas NaN and None are both modelled as a missing value.
- A non-string title or location is modelled as `None`. `str(x)` of such a value is not modelled beyond the rally test seeing no text.
- A time of day on a date, and `to_datetime(errors='coerce')` parsing of date strings, are left out. Dates are valid calendar dates or missing.
- Corpus.SpeechCorpus.FilterDate: the bounds are dates, not strings; the timestamp range is that of pandas' nanosecond timestamps, which `pd.to_datetime` uses for a date.
- Corpus.SpeechCorpus.RemoveSpeechesBefore: for a year outside 1000..9999, `f"{year}-01-01"` is not an ISO date. The model returns `DateParseError`. pandas rejects a five-digit year when it parses the text, but its fallback parser may read a shorter year as some other date, or reject it as out of bounds; that is not modelled.
- A missing text cell counts as "None" in text joins and in `str(x).split()`, as `astype(str)` makes it.
- DataLoader.GetVocabSize: states the indices in use but not the size of the map itself. The bound `len(vocab) <= max_vocab_size` is stated by `DataLoader.Vocabulary`.
- DataLoader.TextDataset.Length: modelled without a contract of its own; `DataLoader.LengthCountsWindows` states what it means.
- Concurrency and floating-point metrics are not part of this model.
