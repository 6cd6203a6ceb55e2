/**
 * The speech corpus behind the analyses: the speeches table with the columns
 * preprocessing derives from each title and date, the selections that return
 * a narrower corpus with the matching transcriptions, the date range filter,
 * and the aggregation of transcription rows into one text per speech.
 */
module Corpus {
  import opened Wrappers
  import opened Text
  import opened Dates
  import opened Frames
  import Locations

  /**
   * A row of the speeches table. `title`, `location` and `categories` are
   * `None` for a value that is not a string, `date` is `None` for NaT; `year`,
   * `isRally` and `campaign` are the columns preprocessing writes.
   */
  datatype Row = Row(
    id: string,
    title: Option<string>,
    date: Option<ValidDate>,
    location: Option<string>,
    categories: Option<string>,
    year: Option<int>,
    isRally: bool,
    campaign: Option<string>)

  /** A row of a transcriptions table: the speech it belongs to and its text cells by column. */
  datatype Transcript = Transcript(speechId: string, cells: map<string, string>)

  /** The text of a cell as `astype(str)` gives it; a cell the row lacks is a missing value. */
  function Cell(cells: map<string, string>, col: string): string {
    if col in cells then cells[col] else "None"
  }

  // ---------------------------------------------------------------------------
  // Preprocessing
  // ---------------------------------------------------------------------------

  /**
   * `re.search("Rally|Campaign", str(title), re.IGNORECASE)`. The text `str`
   * gives a missing title ("None" or "nan") contains neither word.
   */
  predicate IsRally(title: Option<string>) {
    title.Some? && (Contains(Lower(title.value), "rally") || Contains(Lower(title.value), "campaign"))
  }

  lemma LowerAppend(a: string, b: string)
    ensures Lower(a + b) == Lower(a) + Lower(b)
  {
  }

  lemma ContainsInfix(a: string, p: string, b: string)
    ensures Contains(a + p + b, p)
  {
    var s := a + p + b;
    assert s[|a|..|a| + |p|] == p;
    assert OccursAt(s, p, |a|);
    ContainsIff(s, p);
  }

  /** Whatever surrounds it, a title naming a "Rally", in any case, is a rally. */
  lemma RallyInTitle(a: string, word: string, b: string)
    requires Lower(word) == "rally"
    ensures IsRally(Some(a + word + b))
  {
    LowerAppend(a + word, b);
    LowerAppend(a, word);
    ContainsInfix(Lower(a), "rally", Lower(b));
  }

  /** Only the letters of a title matter to the rally test, not their case. */
  lemma RallyIgnoresCase(t: string)
    ensures IsRally(Some(Lower(t))) == IsRally(Some(t))
  {
    assert Lower(Lower(t)) == Lower(t);
  }

  /**
   * The regex ` in (.*?)(?: -|$)` searched from index `k` on: the group of
   * the leftmost match, which starts at the first " in " whose lazy group
   * reaches " -" or the end before a line break.
   */
  function SearchIn(t: string, k: nat): (g: Option<string>)
    requires k <= |t|
    ensures g.Some? ==> exists j :: k <= j && OccursAt(t, " in ", j)
    decreases |t| - k
  {
    if k + 4 > |t| then None
    else if OccursAt(t, " in ", k) && Locations.LazyEnd(t, k + 4, false).Some? then
      Some(t[k + 4..Locations.LazyEnd(t, k + 4, false).value])
    else SearchIn(t, k + 1)
  }

  /** `extract_location`: the stripped group of the search, `None` for a non-string title or no match. */
  function ExtractLocation(title: Option<string>): (loc: Option<string>)
    ensures title.None? ==> loc.None?
    ensures title.Some? && !Contains(title.value, " in ") ==> loc.None?
  {
    match title
    case None => None
    case Some(t) =>
      ContainsIff(t, " in ");
      match SearchIn(t, 0)
      case None => None
      case Some(g) => Some(Strip(g))
  }

  lemma {:induction false} SearchSkips(t: string, j: nat, k: nat)
    requires j <= k <= |t|
    requires forall i :: j <= i < k ==> !OccursAt(t, " in ", i)
    ensures SearchIn(t, j) == SearchIn(t, k)
    decreases k - j
  {
    if j < k {
      SearchSkips(t, j + 1, k);
    }
  }

  /**
   * Without a line break, the location is the stripped text between the first
   * " in " and the first " -" after it, or the end of the title.
   */
  lemma ExtractWithoutNewline(t: string, k: nat)
    requires '\n' !in t
    requires OccursAt(t, " in ", k) && forall j :: 0 <= j < k ==> !OccursAt(t, " in ", j)
    ensures exists e ::
      && k + 4 <= e <= |t| && (e == |t| || OccursAt(t, " -", e))
      && (forall j :: k + 4 <= j < e ==> !OccursAt(t, " -", j))
      && ExtractLocation(Some(t)) == Some(Strip(t[k + 4..e]))
  {
    SearchSkips(t, 0, k);
    Locations.LazyEndWithoutNewline(t, k + 4, false);
    var e := Locations.LazyEnd(t, k + 4, false).value;
    assert SearchIn(t, k) == Some(t[k + 4..e]);
    forall j | k + 4 <= j < e ensures !OccursAt(t, " -", j) {
      assert !Locations.StopAt(t, j, false);
    }
    assert e < |t| ==> t[e] != '\n';
  }

  /** The years of the campaign cycle a label names; none for any other label. */
  function CycleYears(cycle: string): set<int> {
    if cycle == "2016" then {2015, 2016}
    else if cycle == "2020" then {2019, 2020}
    else if cycle == "2024" then {2023, 2024, 2025}
    else {}
  }

  /** `get_campaign`: the cycle a speech's date falls in. */
  function Campaign(date: Option<ValidDate>): (c: Option<string>)
    ensures c.None? <==> date.None?
    ensures c.Some? ==> c.value == "2016" || c.value == "2020" || c.value == "2024" || c.value == "Other"
  {
    match date
    case None => None
    case Some(d) =>
      var y := d.year;
      if y in [2015, 2016] then Some("2016")
      else if y in [2019, 2020] then Some("2020")
      else if y in [2023, 2024, 2025] then Some("2024")
      else Some("Other")
  }

  /** A dated speech is in a cycle exactly when its year is one of the cycle's years. */
  lemma CampaignCycle(d: ValidDate, cycle: string)
    requires cycle != "Other"
    ensures Campaign(Some(d)) == Some(cycle) <==> d.year in CycleYears(cycle)
  {
  }

  /** "Other" is the label of exactly the years no cycle covers. */
  lemma OtherCampaign(d: ValidDate)
    ensures Campaign(Some(d)) == Some("Other") <==> forall cycle :: d.year !in CycleYears(cycle)
  {
    if Campaign(Some(d)) != Some("Other") {
      var cycle := Campaign(Some(d)).value;
      assert d.year in CycleYears(cycle);
    }
  }

  /** A row after `_preprocess`; the location is extracted only when the table has no location column. */
  function Preprocessed(r: Row, hasLocation: bool): Row {
    r.(year := if r.date.Some? then Some(r.date.value.year) else None,
       isRally := IsRally(r.title),
       location := if hasLocation then r.location else ExtractLocation(r.title),
       campaign := Campaign(r.date))
  }

  /** The derived columns depend only on the title and date, so preprocessing twice changes nothing. */
  lemma PreprocessStable(r: Row, hasLocation: bool)
    ensures Preprocessed(Preprocessed(r, hasLocation), true) == Preprocessed(r, hasLocation)
  {
  }

  /** Preprocessing keeps each row's identity, title, date and categories. */
  lemma PreprocessKeeps(r: Row, hasLocation: bool)
    ensures var p := Preprocessed(r, hasLocation);
      p.id == r.id && p.title == r.title && p.date == r.date && p.categories == r.categories
    ensures var p := Preprocessed(r, hasLocation);
      (p.year.Some? <==> r.date.Some?) && (p.campaign.Some? <==> r.date.Some?)
  {
  }

  // ---------------------------------------------------------------------------
  // Selections
  // ---------------------------------------------------------------------------

  /** `col.str.contains(q, case=False, na=False)` for a literal `q`: a missing cell never matches. */
  predicate ContainsIgnoringCase(cell: Option<string>, q: string) {
    cell.Some? && Contains(Lower(cell.value), Lower(q))
  }

  /** The keys `filter` understands; an absent key is `None`. */
  datatype Filters = Filters(
    campaign: Option<string>,
    isRally: Option<bool>,
    location: Option<string>,
    category: Option<string>)

  /** A row satisfies every condition `f` supplies. */
  predicate Matches(f: Filters, r: Row) {
    && (f.campaign.Some? ==> r.campaign == Some(f.campaign.value))
    && (f.isRally.Some? ==> r.isRally == f.isRally.value)
    && (f.location.Some? ==> ContainsIgnoringCase(r.location, f.location.value))
    && (f.category.Some? ==> ContainsIgnoringCase(r.categories, f.category.value))
  }

  function Matching(f: Filters): (p: Row -> bool)
    ensures forall r :: p(r) == Matches(f, r)
  {
    (r: Row) => Matches(f, r)
  }

  function InCampaign(cycle: string): (p: Row -> bool)
    ensures forall r :: p(r) == (r.campaign == Some(cycle))
  {
    (r: Row) => r.campaign == Some(cycle)
  }

  function RallyIs(b: bool): (p: Row -> bool)
    ensures forall r :: p(r) == (r.isRally == b)
  {
    (r: Row) => r.isRally == b
  }

  function LocationHas(q: string): (p: Row -> bool)
    ensures forall r :: p(r) == ContainsIgnoringCase(r.location, q)
  {
    (r: Row) => ContainsIgnoringCase(r.location, q)
  }

  function CategoryHas(q: string): (p: Row -> bool)
    ensures forall r :: p(r) == ContainsIgnoringCase(r.categories, q)
  {
    (r: Row) => ContainsIgnoringCase(r.categories, q)
  }

  function CampaignRally(cycle: string): (p: Row -> bool)
    ensures forall r :: p(r) == (r.campaign == Some(cycle) && r.isRally)
  {
    (r: Row) => r.campaign == Some(cycle) && r.isRally
  }

  /** `get_campaign_rallies(c)` selects the rows `filter({'campaign': c, 'is_rally': True})` does. */
  lemma CampaignRalliesAsFilter(rows: seq<Row>, cycle: string)
    ensures Where(rows, CampaignRally(cycle)) == Where(rows, Matching(Filters(Some(cycle), Some(true), None, None)))
  {
    WhereSame(rows, CampaignRally(cycle), Matching(Filters(Some(cycle), Some(true), None, None)));
  }

  /** Each single selection is `filter` with only its own key. */
  lemma SelectionsAsFilter(rows: seq<Row>, cycle: string, b: bool, q: string)
    ensures Where(rows, InCampaign(cycle)) == Where(rows, Matching(Filters(Some(cycle), None, None, None)))
    ensures Where(rows, RallyIs(b)) == Where(rows, Matching(Filters(None, Some(b), None, None)))
    ensures Where(rows, LocationHas(q)) == Where(rows, Matching(Filters(None, None, Some(q), None)))
    ensures Where(rows, CategoryHas(q)) == Where(rows, Matching(Filters(None, None, None, Some(q))))
  {
    WhereSame(rows, InCampaign(cycle), Matching(Filters(Some(cycle), None, None, None)));
    WhereSame(rows, RallyIs(b), Matching(Filters(None, Some(b), None, None)));
    WhereSame(rows, LocationHas(q), Matching(Filters(None, None, Some(q), None)));
    WhereSame(rows, CategoryHas(q), Matching(Filters(None, None, None, Some(q))));
  }

  /** A filter with no keys keeps every row. */
  lemma EmptyFilter(rows: seq<Row>)
    ensures Where(rows, Matching(Filters(None, None, None, None))) == rows
  {
    WhereAll(rows, Matching(Filters(None, None, None, None)));
  }

  /** The ids of the kept speeches, `filtered_speeches['id'].unique()`. */
  function Ids(rows: seq<Row>): (ids: set<string>)
    ensures forall id :: id in ids <==> exists r :: r in rows && r.id == id
  {
    set r | r in rows :: r.id
  }

  function OfSpeeches(ids: set<string>): (p: Transcript -> bool)
    ensures forall t :: p(t) == (t.speechId in ids)
  {
    (t: Transcript) => t.speechId in ids
  }

  /** The transcriptions a filtered corpus keeps: those of the kept speeches, in their original order. */
  function Restrict(ts: seq<Transcript>, kept: seq<Row>): (r: seq<Transcript>)
    ensures forall t :: t in r <==> t in ts && exists s :: s in kept && s.id == t.speechId
  {
    Where(ts, OfSpeeches(Ids(kept)))
  }

  /** Restricting a restricted table to fewer speeches is restricting the original one. */
  lemma RestrictTwice(ts: seq<Transcript>, a: seq<Row>, b: seq<Row>)
    requires forall s :: s in b ==> s in a
    ensures Restrict(Restrict(ts, a), b) == Restrict(ts, b)
  {
    WhereNarrow(ts, OfSpeeches(Ids(a)), OfSpeeches(Ids(b)), OfSpeeches(Ids(b)));
  }

  // ---------------------------------------------------------------------------
  // Date range
  // ---------------------------------------------------------------------------

  /** `date >= start` and `date <= end` for the bounds given; NaT fails every comparison. */
  predicate InRange(r: Row, start: Option<ValidDate>, end: Option<ValidDate>) {
    && (start.Some? ==> r.date.Some? && Ordinal(start.value) <= Ordinal(r.date.value))
    && (end.Some? ==> r.date.Some? && Ordinal(r.date.value) <= Ordinal(end.value))
  }

  function Between(start: Option<ValidDate>, end: Option<ValidDate>): (p: Row -> bool)
    ensures forall r :: p(r) == InRange(r, start, end)
  {
    (r: Row) => InRange(r, start, end)
  }

  /** Both bounds are inclusive, in calendar order. */
  lemma RangeInclusive(r: Row, start: ValidDate, end: ValidDate)
    ensures InRange(r, Some(start), Some(end)) <==>
      r.date.Some? && !Before(r.date.value, start) && !Before(end, r.date.value)
  {
    if r.date.Some? {
      OrdinalOrder(r.date.value, start);
      OrdinalOrder(end, r.date.value);
    }
  }

  function FromYear(y: int): (p: Row -> bool)
    ensures forall r :: p(r) == (r.date.Some? && r.date.value.year >= y)
  {
    (r: Row) => r.date.Some? && r.date.value.year >= y
  }

  /** Starting on January 1st of `y` keeps exactly the dated speeches of year `y` or later. */
  lemma FromYearStart(rows: seq<Row>, y: int)
    requires 1 <= y <= 9999
    ensures Where(rows, Between(Some(Date(y, 1, 1)), None)) == Where(rows, FromYear(y))
  {
    forall r | r in rows ensures InRange(r, Some(Date(y, 1, 1)), None) == (r.date.Some? && r.date.value.year >= y) {
      if r.date.Some? {
        OnOrAfterYearStart(r.date.value, y);
      }
    }
    WhereSame(rows, Between(Some(Date(y, 1, 1)), None), FromYear(y));
  }

  /**
   * The days whose midnight pandas' nanosecond timestamps can hold: they run
   * from 1677-09-21 00:12:43 to 2262-04-11 23:47:16, so 1677-09-22 to 2262-04-11.
   */
  predicate TimestampDate(d: Date) {
    !Before(d, Date(1677, 9, 22)) && !Before(Date(2262, 4, 11), d)
  }

  /** The years whose January 1st is such a day. */
  predicate TimestampYear(y: int) {
    1678 <= y <= 2262
  }

  lemma YearStartTimestamp(y: int)
    ensures TimestampDate(Date(y, 1, 1)) <==> TimestampYear(y)
  {
  }

  // ---------------------------------------------------------------------------
  // Full speeches
  // ---------------------------------------------------------------------------

  /** `text_columns`: `None`, one column name, or a list of them. */
  datatype ColumnChoice = DefaultColumns | OneColumn(name: string) | ColumnList(names: seq<string>)

  /** A row of `get_full_speeches`: the speech's columns and the joined text of each column aggregated. */
  datatype FullSpeech = FullSpeech(speech: Row, texts: map<string, string>)

  function Absent(columns: set<string>): (p: string -> bool)
    ensures forall c :: p(c) == (c !in columns)
  {
    (c: string) => c !in columns
  }

  /** The requested columns the table lacks, in the order requested. */
  function Missing(cols: seq<string>, columns: set<string>): (m: seq<string>)
    ensures forall c :: c in m <==> c in cols && c !in columns
  {
    Where(cols, Absent(columns))
  }

  function OfSpeech(id: string): (p: Transcript -> bool)
    ensures forall t :: p(t) == (t.speechId == id)
  {
    (t: Transcript) => t.speechId == id
  }

  /** The cells of one column, row by row. */
  function Cells(ts: seq<Transcript>, col: string): (cs: seq<string>)
    ensures |cs| == |ts| && forall i :: 0 <= i < |ts| ==> cs[i] == Cell(ts[i].cells, col)
  {
    seq(|ts|, i requires 0 <= i < |ts| => Cell(ts[i].cells, col))
  }

  /** `' '.join(x.astype(str))` over the rows of one speech, in table order. */
  function JoinedText(ts: seq<Transcript>, id: string, col: string): string {
    Join(" ", Cells(Where(ts, OfSpeech(id)), col))
  }

  predicate Transcribed(ts: seq<Transcript>, id: string) {
    exists t :: t in ts && t.speechId == id
  }

  function HasTranscript(ts: seq<Transcript>): (p: Row -> bool)
    ensures forall r :: p(r) == Transcribed(ts, r.id)
  {
    (r: Row) => Transcribed(ts, r.id)
  }

  /** The aggregated texts of one speech, by column. */
  function Texts(ts: seq<Transcript>, id: string, cols: seq<string>): (m: map<string, string>)
    ensures m.Keys == set c | c in cols
    ensures forall c :: c in cols ==> m[c] == JoinedText(ts, id, c)
  {
    map c | c in cols :: JoinedText(ts, id, c)
  }

  /**
   * The inner merge of the speeches with the aggregated transcriptions: in
   * speech order, each speech that has a transcription with its texts.
   */
  function Merge(speeches: seq<Row>, ts: seq<Transcript>, cols: seq<string>): (fs: seq<FullSpeech>)
    ensures |fs| <= |speeches|
    ensures forall f :: f in fs ==> f.speech in speeches && Transcribed(ts, f.speech.id) && f.texts == Texts(ts, f.speech.id, cols)
    decreases |speeches|
  {
    if speeches == [] then []
    else
      var s := speeches[0];
      (if Transcribed(ts, s.id) then [FullSpeech(s, Texts(ts, s.id, cols))] else []) + Merge(speeches[1..], ts, cols)
  }

  /** The speech columns of the merged rows, in order. */
  function SpeechesOf(fs: seq<FullSpeech>): (rs: seq<Row>)
    ensures |rs| == |fs|
    decreases |fs|
  {
    if fs == [] then [] else [fs[0].speech] + SpeechesOf(fs[1..])
  }

  /** The merge keeps, in order, exactly the speeches that have a transcription: the rest are dropped. */
  lemma {:induction false} MergeKeepsTranscribed(speeches: seq<Row>, ts: seq<Transcript>, cols: seq<string>)
    ensures SpeechesOf(Merge(speeches, ts, cols)) == Where(speeches, HasTranscript(ts))
    decreases |speeches|
  {
    if speeches != [] {
      MergeKeepsTranscribed(speeches[1..], ts, cols);
      var s := speeches[0];
      var rest := Merge(speeches[1..], ts, cols);
      if Transcribed(ts, s.id) {
        var f := FullSpeech(s, Texts(ts, s.id, cols));
        assert Merge(speeches, ts, cols) == [f] + rest;
        assert ([f] + rest)[1..] == rest;
      } else {
        assert Merge(speeches, ts, cols) == rest;
      }
    }
  }

  /** A speech with a single transcription row gets that row's cell as its text. */
  lemma SingleTranscript(ts: seq<Transcript>, k: nat, col: string)
    requires k < |ts| && forall j :: 0 <= j < |ts| && j != k ==> ts[j].speechId != ts[k].speechId
    ensures JoinedText(ts, ts[k].speechId, col) == Cell(ts[k].cells, col)
  {
    WhereOnly(ts, OfSpeech(ts[k].speechId), k);
  }

  /** The columns used when none are named: "text" then "cleaned_transcription", those the table has. */
  function DefaultTextColumns(columns: set<string>): (cols: seq<string>)
    ensures forall c :: c in cols <==> c in columns && (c == "text" || c == "cleaned_transcription")
    ensures |cols| <= 2 && ("text" in cols ==> cols[0] == "text")
  {
    (if "text" in columns then ["text"] else []) + (if "cleaned_transcription" in columns then ["cleaned_transcription"] else [])
  }

  /** `text_columns` as the list it becomes. */
  function ResolveColumns(choice: ColumnChoice, columns: set<string>): (cols: seq<string>)
    ensures choice.OneColumn? ==> cols == [choice.name]
    ensures choice.ColumnList? ==> cols == choice.names
  {
    match choice
    case DefaultColumns => DefaultTextColumns(columns)
    case OneColumn(name) => [name]
    case ColumnList(names) => names
  }

  /**
   * `get_full_speeches`: a `ValueError` naming the requested columns the
   * transcriptions lack; with no column at all, the aggregation of an empty
   * dictionary fails as pandas' concatenation of nothing; otherwise the merge.
   */
  function FullSpeeches(speeches: seq<Row>, ts: seq<Transcript>, columns: set<string>, choice: ColumnChoice)
    : (r: Result<seq<FullSpeech>>)
    ensures r.Err? <==> ResolveColumns(choice, columns) == [] || exists c :: c in ResolveColumns(choice, columns) && c !in columns
    ensures (exists c :: c in ResolveColumns(choice, columns) && c !in columns) ==>
      r == Err(ValueError(Missing(ResolveColumns(choice, columns), columns)))
    ensures ResolveColumns(choice, columns) == [] ==> r == Err(NoObjectsToConcatenate)
    ensures r.Ok? ==> SpeechesOf(r.value) == Where(speeches, HasTranscript(ts))
    ensures r.Ok? ==> forall f :: f in r.value ==> f.texts.Keys <= columns
    ensures r.Ok? ==> forall f :: f in r.value ==> f.texts == Texts(ts, f.speech.id, ResolveColumns(choice, columns))
  {
    var cols := ResolveColumns(choice, columns);
    var missing := Missing(cols, columns);
    if missing != [] then
      assert missing[0] in missing;
      Err(ValueError(missing))
    else if cols == [] then
      Err(NoObjectsToConcatenate)
    else
      assert missing == [] ==> forall c :: c in cols ==> c in columns;
      MergeKeepsTranscribed(speeches, ts, cols);
      Ok(Merge(speeches, ts, cols))
  }

  /** With no column named, the call succeeds exactly when the table has one of the two default columns. */
  lemma DefaultsOkIff(speeches: seq<Row>, ts: seq<Transcript>, columns: set<string>)
    ensures FullSpeeches(speeches, ts, columns, DefaultColumns).Ok? <==> "text" in columns || "cleaned_transcription" in columns
  {
  }

  // ---------------------------------------------------------------------------
  // The corpus object
  // ---------------------------------------------------------------------------

  /** The preprocessed table: every row through `Preprocessed`. */
  function PreprocessAll(rows: seq<Row>, hasLocation: bool): (ps: seq<Row>)
    ensures |ps| == |rows| && forall i :: 0 <= i < |rows| ==> ps[i] == Preprocessed(rows[i], hasLocation)
  {
    seq(|rows|, i requires 0 <= i < |rows| => Preprocessed(rows[i], hasLocation))
  }

  /**
   * A `SpeechCorpus`: its paths, its speeches with the derived columns, its
   * transcriptions and the column names of the transcriptions table. The
   * tables are read into memory before the object is built.
   */
  class SpeechCorpus {
    var dataDir: string
    var speechesPath: string
    var transcriptionsPath: string
    var speeches: seq<Row>
    var transcriptions: seq<Transcript>
    var transcriptionColumns: set<string>

    /** `__init__` with the two tables loaded; `hasLocation` says whether the speeches table has a location column. */
    constructor (dataDir: string, transcriptionFile: string, speeches: seq<Row>, transcriptions: seq<Transcript>,
                 transcriptionColumns: set<string>, hasLocation: bool)
      ensures this.dataDir == dataDir
      ensures speechesPath == dataDir + "/speeches.parquet" && transcriptionsPath == dataDir + "/" + transcriptionFile
      ensures this.speeches == PreprocessAll(speeches, hasLocation)
      ensures this.transcriptions == transcriptions && this.transcriptionColumns == transcriptionColumns
    {
      this.dataDir := dataDir;
      speechesPath := dataDir + "/speeches.parquet";
      transcriptionsPath := dataDir + "/" + transcriptionFile;
      this.speeches := speeches;
      this.transcriptions := transcriptions;
      this.transcriptionColumns := transcriptionColumns;
      new;
      Preprocess(hasLocation);
    }

    /** `_preprocess`: writes the year, rally, location (when missing) and campaign columns in place. */
    method Preprocess(hasLocation: bool)
      modifies this
      ensures speeches == PreprocessAll(old(speeches), hasLocation)
      ensures dataDir == old(dataDir) && speechesPath == old(speechesPath) && transcriptionsPath == old(transcriptionsPath)
      ensures transcriptions == old(transcriptions) && transcriptionColumns == old(transcriptionColumns)
    {
      speeches := PreprocessAll(speeches, hasLocation);
    }

    /** `c` is the corpus `_create_filtered_corpus` builds from this one for the rows `kept`. */
    predicate FilteredTo(c: SpeechCorpus, kept: seq<Row>)
      reads this, c
    {
      && c.dataDir == dataDir && c.speechesPath == speechesPath && c.transcriptionsPath == transcriptionsPath
      && c.speeches == kept && c.transcriptions == Restrict(transcriptions, kept)
      && c.transcriptionColumns == transcriptionColumns
    }

    /** `_create_filtered_corpus`: the same paths, the kept speeches and their transcriptions. */
    method CreateFilteredCorpus(kept: seq<Row>) returns (c: SpeechCorpus)
      ensures fresh(c) && FilteredTo(c, kept)
    {
      c := new SpeechCorpus.Empty();
      c.dataDir := dataDir;
      c.speechesPath := speechesPath;
      c.transcriptionsPath := transcriptionsPath;
      c.speeches := kept;
      c.transcriptions := Restrict(transcriptions, kept);
      c.transcriptionColumns := transcriptionColumns;
    }

    /** `SpeechCorpus.__new__`: an object whose fields are set afterwards. */
    constructor Empty()
      ensures speeches == [] && transcriptions == []
    {
      dataDir := "";
      speechesPath := "";
      transcriptionsPath := "";
      speeches := [];
      transcriptions := [];
      transcriptionColumns := {};
    }

    method GetCampaign(cycle: string) returns (c: SpeechCorpus)
      ensures fresh(c) && FilteredTo(c, Where(speeches, InCampaign(cycle)))
    {
      c := CreateFilteredCorpus(Where(speeches, InCampaign(cycle)));
    }

    method GetRallies(isRally: bool) returns (c: SpeechCorpus)
      ensures fresh(c) && FilteredTo(c, Where(speeches, RallyIs(isRally)))
    {
      c := CreateFilteredCorpus(Where(speeches, RallyIs(isRally)));
    }

    method GetCampaignRallies(cycle: string) returns (c: SpeechCorpus)
      ensures fresh(c) && FilteredTo(c, Where(speeches, CampaignRally(cycle)))
    {
      c := CreateFilteredCorpus(Where(speeches, CampaignRally(cycle)));
    }

    method GetByLocation(location: string) returns (c: SpeechCorpus)
      ensures fresh(c) && FilteredTo(c, Where(speeches, LocationHas(location)))
    {
      c := CreateFilteredCorpus(Where(speeches, LocationHas(location)));
    }

    method GetByCategory(category: string) returns (c: SpeechCorpus)
      ensures fresh(c) && FilteredTo(c, Where(speeches, CategoryHas(category)))
    {
      c := CreateFilteredCorpus(Where(speeches, CategoryHas(category)));
    }

    /** `filter`: narrows the rows key by key, for the keys present, in the order campaign, rally, location, category. */
    method Filter(f: Filters) returns (c: SpeechCorpus)
      ensures fresh(c) && FilteredTo(c, Where(speeches, Matching(f)))
    {
      var kept := speeches;
      ghost var g := Filters(None, None, None, None);
      EmptyFilter(speeches);
      if f.campaign.Some? {
        WhereNarrow(speeches, Matching(g), InCampaign(f.campaign.value), Matching(g.(campaign := f.campaign)));
        kept := Where(kept, InCampaign(f.campaign.value));
        g := g.(campaign := f.campaign);
      }
      if f.isRally.Some? {
        WhereNarrow(speeches, Matching(g), RallyIs(f.isRally.value), Matching(g.(isRally := f.isRally)));
        kept := Where(kept, RallyIs(f.isRally.value));
        g := g.(isRally := f.isRally);
      }
      if f.location.Some? {
        WhereNarrow(speeches, Matching(g), LocationHas(f.location.value), Matching(g.(location := f.location)));
        kept := Where(kept, LocationHas(f.location.value));
        g := g.(location := f.location);
      }
      if f.category.Some? {
        WhereNarrow(speeches, Matching(g), CategoryHas(f.category.value), Matching(g.(category := f.category)));
        kept := Where(kept, CategoryHas(f.category.value));
        g := g.(category := f.category);
      }
      assert g == f;
      c := CreateFilteredCorpus(kept);
    }

    /**
     * `filter_date`: the start bound, then the end bound, each only when given;
     * `pd.to_datetime` refuses a bound its timestamps cannot hold.
     */
    method FilterDate(start: Option<ValidDate>, end: Option<ValidDate>) returns (r: Result<SpeechCorpus>)
      ensures r.Err? <==> (start.Some? && !TimestampDate(start.value)) || (end.Some? && !TimestampDate(end.value))
      ensures r.Err? ==> r.error == OutOfBoundsDatetime
      ensures r.Ok? ==> fresh(r.value) && FilteredTo(r.value, Where(speeches, Between(start, end)))
    {
      var kept := speeches;
      WhereAll(speeches, Between(None, None));
      if start.Some? {
        if !TimestampDate(start.value) {
          return Err(OutOfBoundsDatetime);
        }
        WhereNarrow(speeches, Between(None, None), Between(start, None), Between(start, None));
        kept := Where(kept, Between(start, None));
      }
      if end.Some? {
        if !TimestampDate(end.value) {
          return Err(OutOfBoundsDatetime);
        }
        WhereNarrow(speeches, Between(start, None), Between(None, end), Between(start, end));
        kept := Where(kept, Between(None, end));
      }
      var c := CreateFilteredCorpus(kept);
      r := Ok(c);
    }

    /**
     * `remove_speeches_before`: `filter_date` from `f"{year}-01-01"`. For a
     * four-digit year that is an ISO date, refused when the timestamps cannot
     * hold it; any other year does not give an ISO date.
     */
    method RemoveSpeechesBefore(year: int) returns (r: Result<SpeechCorpus>)
      ensures r.Err? <==> !TimestampYear(year)
      ensures 1000 <= year <= 9999 && r.Err? ==> r.error == OutOfBoundsDatetime
      ensures !(1000 <= year <= 9999) ==> r == Err(DateParseError)
      ensures r.Ok? ==> fresh(r.value) && FilteredTo(r.value, Where(speeches, FromYear(year)))
    {
      if !(1000 <= year <= 9999) {
        return Err(DateParseError);
      }
      FromYearStart(speeches, year);
      YearStartTimestamp(year);
      r := FilterDate(Some(Date(year, 1, 1)), None);
    }

    /** `get_full_speeches`: builds the column list, checks it, and merges the aggregated texts. */
    method GetFullSpeeches(choice: ColumnChoice) returns (r: Result<seq<FullSpeech>>)
      ensures r == FullSpeeches(speeches, transcriptions, transcriptionColumns, choice)
    {
      var textColumns: seq<string>;
      match choice {
        case DefaultColumns =>
          textColumns := [];
          if "text" in transcriptionColumns {
            textColumns := textColumns + ["text"];
          }
          if "cleaned_transcription" in transcriptionColumns {
            textColumns := textColumns + ["cleaned_transcription"];
          }
        case OneColumn(name) =>
          textColumns := [name];
        case ColumnList(names) =>
          textColumns := names;
      }
      assert textColumns == ResolveColumns(choice, transcriptionColumns);
      var missing := Missing(textColumns, transcriptionColumns);
      if missing != [] {
        return Err(ValueError(missing));
      }
      if textColumns == [] {
        return Err(NoObjectsToConcatenate);
      }
      r := Ok(Merge(speeches, transcriptions, textColumns));
    }
  }
}
