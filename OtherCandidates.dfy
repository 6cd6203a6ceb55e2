/**
 * The corpus of other candidates' speeches: transcription rows tagged with the
 * speaker's name, the selection of one candidate, and the aggregation into one
 * row per speech and speaker with the columns the main corpus has.
 */
module OtherCandidates {
  import opened Wrappers
  import opened Text
  import opened Ordering
  import opened Dates
  import opened Frames
  import Corpus

  /** A transcription row: its speech, its speaker and its text cells by column. */
  datatype Transcript = Transcript(speechId: string, personName: string, cells: map<string, string>)

  /** The grouping key `['speech_id', 'person_name']`. */
  datatype SpeechKey = SpeechKey(speechId: string, personName: string)

  function KeyOf(t: Transcript): SpeechKey {
    SpeechKey(t.speechId, t.personName)
  }

  /**
   * A row of `get_full_speeches`: the key, the joined texts, and the columns
   * that make it look like a row of the main corpus.
   */
  datatype FullSpeech = FullSpeech(
    speechId: string,
    personName: string,
    texts: map<string, string>,
    date: Option<ValidDate>,
    title: string,
    isRally: bool,
    location: Option<string>,
    campaign: string,
    categories: Option<string>,
    candidate: string)

  function BySpeaker(name: string): (p: Transcript -> bool)
    ensures forall t :: p(t) == (t.personName == name)
  {
    (t: Transcript) => t.personName == name
  }

  /**
   * The order `groupby` sorts its keys in: by speech id, then by speaker,
   * each compared as Python compares strings.
   */
  predicate KeyLess(a: SpeechKey, b: SpeechKey) {
    LexLess(a.speechId, b.speechId) || (a.speechId == b.speechId && LexLess(a.personName, b.personName))
  }

  lemma KeyLessStrictTotal()
    ensures StrictTotal(KeyLess)
  {
    forall a ensures !KeyLess(a, a) {
      LexLessIrreflexive(a.speechId);
      LexLessIrreflexive(a.personName);
    }
    forall a, b, c | KeyLess(a, b) && KeyLess(b, c) ensures KeyLess(a, c) {
      if LexLess(a.speechId, b.speechId) && LexLess(b.speechId, c.speechId) {
        LexLessTransitive(a.speechId, b.speechId, c.speechId);
      } else if a.speechId == b.speechId && b.speechId == c.speechId {
        LexLessTransitive(a.personName, b.personName, c.personName);
      }
    }
    forall a, b | a != b ensures KeyLess(a, b) || KeyLess(b, a) {
      if a.speechId != b.speechId {
        LexLessTotal(a.speechId, b.speechId);
      } else {
        LexLessTotal(a.personName, b.personName);
      }
    }
  }

  /** The key of every row, in table order. */
  function KeyColumn(ts: seq<Transcript>): seq<SpeechKey> {
    seq(|ts|, i requires 0 <= i < |ts| => KeyOf(ts[i]))
  }

  lemma KeyColumnMembers(ts: seq<Transcript>)
    ensures forall k :: k in KeyColumn(ts) <==> exists t :: t in ts && KeyOf(t) == k
  {
    var col := KeyColumn(ts);
    forall k | k in col ensures exists t :: t in ts && KeyOf(t) == k {
      var i :| 0 <= i < |col| && col[i] == k;
      assert ts[i] in ts;
    }
    forall t | t in ts ensures KeyOf(t) in col {
      var i :| 0 <= i < |ts| && ts[i] == t;
      assert col[i] == KeyOf(t);
    }
  }

  /** The distinct keys of the rows, in the ascending order `groupby` puts them in. */
  function Groups(ts: seq<Transcript>): (ks: seq<SpeechKey>)
    ensures Ascending(KeyLess, ks)
    ensures forall i, j :: 0 <= i < j < |ks| ==> ks[i] != ks[j]
    ensures forall k :: k in ks <==> exists t :: t in ts && KeyOf(t) == k
  {
    KeyLessStrictTotal();
    KeyColumnMembers(ts);
    var ks := SortedDistinct(KeyLess, KeyColumn(ts));
    AscendingDistinct(KeyLess, ks);
    ks
  }

  function InGroup(k: SpeechKey): (p: Transcript -> bool)
    ensures forall t :: p(t) == (KeyOf(t) == k)
  {
    (t: Transcript) => KeyOf(t) == k
  }

  function Cells(ts: seq<Transcript>, col: string): (cs: seq<string>)
    ensures |cs| == |ts| && forall i :: 0 <= i < |ts| ==> cs[i] == Corpus.Cell(ts[i].cells, col)
  {
    seq(|ts|, i requires 0 <= i < |ts| => Corpus.Cell(ts[i].cells, col))
  }

  /** `' '.join(x.astype(str))` over the rows of one group, in table order. */
  function JoinedText(ts: seq<Transcript>, k: SpeechKey, col: string): string {
    Join(" ", Cells(Where(ts, InGroup(k)), col))
  }

  /** One aggregated group with the compatibility columns written in. */
  function Compatible(ts: seq<Transcript>, k: SpeechKey, cols: seq<string>): FullSpeech {
    FullSpeech(
      k.speechId, k.personName, map c | c in cols :: JoinedText(ts, k, c),
      None, "Speech: " + k.personName, false, None, "Other", None, k.personName)
  }

  /**
   * `get_full_speeches` once the columns are chosen. pandas refuses to
   * aggregate a column the table lacks, naming the absent keys of the
   * aggregation dictionary sorted and once each; an empty dictionary fails
   * when pandas concatenates no results; otherwise there is one row per
   * distinct (speech, speaker) pair.
   */
  function Aggregate(ts: seq<Transcript>, columns: set<string>, cols: seq<string>): (r: Result<seq<FullSpeech>>)
    ensures r.Err? <==> cols == [] || exists c :: c in cols && c !in columns
    ensures (exists c :: c in cols && c !in columns) ==>
      && r.Err? && r.error.KeyError? && Ascending(LexLess, r.error.columns)
      && forall c :: c in r.error.columns <==> c in cols && c !in columns
    ensures cols == [] ==> r == Err(NoObjectsToConcatenate)
    ensures r.Ok? ==> |r.value| == |Groups(ts)|
    ensures r.Ok? ==> forall i, j :: 0 <= i < j < |r.value| ==>
      KeyLess(SpeechKey(r.value[i].speechId, r.value[i].personName), SpeechKey(r.value[j].speechId, r.value[j].personName))
    ensures r.Ok? ==> forall i :: 0 <= i < |r.value| ==>
      var f := r.value[i];
      && SpeechKey(f.speechId, f.personName) == Groups(ts)[i]
      && f.texts.Keys == (set c | c in cols) && (forall c :: c in cols ==> f.texts[c] == JoinedText(ts, Groups(ts)[i], c))
      && f.date.None? && f.title == "Speech: " + f.personName && !f.isRally && f.location.None?
      && f.campaign == "Other" && f.categories.None? && f.candidate == f.personName
  {
    var absent := SortedStrings(Corpus.Missing(cols, columns));
    if absent != [] then
      assert absent[0] in absent;
      Err(KeyError(absent))
    else if cols == [] then
      Err(NoObjectsToConcatenate)
    else
      var ks := Groups(ts);
      Ok(seq(|ks|, i requires 0 <= i < |ks| => Compatible(ts, ks[i], cols)))
  }

  /** The column list: `['text', 'cleaned_transcription']` by default, a single name as a one-element list. */
  function ResolveColumns(choice: Corpus.ColumnChoice): (cols: seq<string>) {
    match choice
    case DefaultColumns => ["text", "cleaned_transcription"]
    case OneColumn(name) => [name]
    case ColumnList(names) => names
  }

  /** Every (speech, speaker) pair of the table gets exactly one row. */
  lemma OneRowPerSpeech(ts: seq<Transcript>, columns: set<string>, cols: seq<string>, t: Transcript)
    requires Aggregate(ts, columns, cols).Ok? && t in ts
    ensures exists i ::
      && 0 <= i < |Aggregate(ts, columns, cols).value|
      && Aggregate(ts, columns, cols).value[i].speechId == t.speechId
      && Aggregate(ts, columns, cols).value[i].personName == t.personName
  {
    var ks := Groups(ts);
    assert KeyOf(t) in ks;
    var i :| 0 <= i < |ks| && ks[i] == KeyOf(t);
    assert SpeechKey(Aggregate(ts, columns, cols).value[i].speechId, Aggregate(ts, columns, cols).value[i].personName) == ks[i];
  }

  /** After selecting one candidate, every aggregated row is that candidate's, titled with the name. */
  lemma CandidateRows(ts: seq<Transcript>, name: string, columns: set<string>, cols: seq<string>)
    requires Aggregate(Where(ts, BySpeaker(name)), columns, cols).Ok?
    ensures forall f :: f in Aggregate(Where(ts, BySpeaker(name)), columns, cols).value ==>
      f.candidate == name && f.title == "Speech: " + name
  {
    var sel := Where(ts, BySpeaker(name));
    var fs := Aggregate(sel, columns, cols).value;
    forall f | f in fs ensures f.candidate == name && f.title == "Speech: " + name {
      var i :| 0 <= i < |fs| && fs[i] == f;
      var k := Groups(sel)[i];
      assert k in Groups(sel);
      var t :| t in sel && KeyOf(t) == k;
    }
  }

  /** An `OtherCandidatesCorpus`: its paths and its transcription table with the table's column names. */
  class OtherCandidatesCorpus {
    var dataDir: string
    var transcriptionsPath: string
    var transcriptions: seq<Transcript>
    var transcriptionColumns: set<string>

    /** `__init__` with the table loaded. */
    constructor (dataDir: string, transcriptionFile: string, transcriptions: seq<Transcript>, transcriptionColumns: set<string>)
      ensures this.dataDir == dataDir && transcriptionsPath == dataDir + "/" + transcriptionFile
      ensures this.transcriptions == transcriptions && this.transcriptionColumns == transcriptionColumns
    {
      this.dataDir := dataDir;
      transcriptionsPath := dataDir + "/" + transcriptionFile;
      this.transcriptions := transcriptions;
      this.transcriptionColumns := transcriptionColumns;
    }

    /** `OtherCandidatesCorpus.__new__`: an object whose fields are set afterwards. */
    constructor Empty()
      ensures transcriptions == []
    {
      dataDir := "";
      transcriptionsPath := "";
      transcriptions := [];
      transcriptionColumns := {};
    }

    /** `_create_filtered_corpus`: the same paths and the kept rows. */
    method CreateFilteredCorpus(kept: seq<Transcript>) returns (c: OtherCandidatesCorpus)
      ensures fresh(c) && c.dataDir == dataDir && c.transcriptionsPath == transcriptionsPath
      ensures c.transcriptions == kept && c.transcriptionColumns == transcriptionColumns
    {
      c := new OtherCandidatesCorpus.Empty();
      c.dataDir := dataDir;
      c.transcriptionsPath := transcriptionsPath;
      c.transcriptions := kept;
      c.transcriptionColumns := transcriptionColumns;
    }

    /** `get_candidate`: the rows of exactly that speaker, even when there are none. */
    method GetCandidate(name: string) returns (c: OtherCandidatesCorpus)
      ensures fresh(c) && c.dataDir == dataDir && c.transcriptionsPath == transcriptionsPath
      ensures c.transcriptions == Where(transcriptions, BySpeaker(name)) && c.transcriptionColumns == transcriptionColumns
    {
      c := CreateFilteredCorpus(Where(transcriptions, BySpeaker(name)));
    }

    method GetKamala() returns (c: OtherCandidatesCorpus)
      ensures fresh(c) && c.dataDir == dataDir && c.transcriptionsPath == transcriptionsPath
      ensures c.transcriptions == Where(transcriptions, BySpeaker("Kamala Harris")) && c.transcriptionColumns == transcriptionColumns
    {
      c := GetCandidate("Kamala Harris");
    }

    method GetBiden() returns (c: OtherCandidatesCorpus)
      ensures fresh(c) && c.dataDir == dataDir && c.transcriptionsPath == transcriptionsPath
      ensures c.transcriptions == Where(transcriptions, BySpeaker("Joe Biden")) && c.transcriptionColumns == transcriptionColumns
    {
      c := GetCandidate("Joe Biden");
    }

    /** `get_full_speeches`: the missing-column check has no effect; the aggregation itself may fail. */
    method GetFullSpeeches(choice: Corpus.ColumnChoice) returns (r: Result<seq<FullSpeech>>)
      ensures r == Aggregate(transcriptions, transcriptionColumns, ResolveColumns(choice))
    {
      var textColumns := ResolveColumns(choice);
      var absent := SortedStrings(Corpus.Missing(textColumns, transcriptionColumns));
      if absent != [] {
        return Err(KeyError(absent));
      }
      if textColumns == [] {
        return Err(NoObjectsToConcatenate);
      }
      var ts := transcriptions;
      var keys := Groups(ts);
      var fullText := seq(|keys|, i requires 0 <= i < |keys| => Compatible(ts, keys[i], textColumns));
      r := Ok(fullText);
    }
  }
}
