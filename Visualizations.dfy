/**
 * The counting behind the charts of the web application: the top locations,
 * speeches per month, tracked-word frequencies per month, and the word count
 * and category label of each speech. The frame passed in is modified in
 * place: the plotting functions add columns to the caller's rows.
 */
module Visualizations {
  import opened Wrappers
  import opened Text
  import opened Dates
  import opened Tally
  import opened Ordering

  /** A `categories` cell: a list of names, or any other value, shown as `str()` prints it. */
  datatype Categories = CategoryList(items: seq<string>) | Other(repr: string)

  /**
   * A row of the frame the charts draw: its date (`None` for `NaT`), location,
   * text columns (`None` for a missing value), categories, and the columns the
   * plotting functions add (`None` for a column not added yet).
   */
  datatype ChartRow = ChartRow(
    date: Option<ValidDate>,
    location: Option<string>,
    texts: map<string, Option<string>>,
    categories: Categories,
    yearMonth: Option<string>,
    wordCount: Option<nat>,
    counts: map<string, Option<nat>>)

  function TextOf(r: ChartRow, col: string): Option<string> {
    if col in r.texts then r.texts[col] else None
  }

  // ---------------------------------------------------------------------------
  // Top locations
  // ---------------------------------------------------------------------------

  /** The present locations, in row order: `value_counts` leaves missing ones out. */
  function PresentLocations(rows: seq<ChartRow>): (ls: seq<string>)
    ensures forall l :: l in ls <==> exists i :: 0 <= i < |rows| && rows[i].location == Some(l)
  {
    if rows == [] then []
    else
      var rest := PresentLocations(rows[1..]);
      assert forall i :: 1 <= i < |rows| ==> rows[i] == rows[1..][i - 1];
      (if rows[0].location.Some? then [rows[0].location.value] else []) + rest
  }

  /** `df['location'].value_counts().head(15)` */
  function TopLocations(rows: seq<ChartRow>): (top: seq<(string, nat)>)
    ensures |top| <= 15
    ensures NoDuplicates(Keys(top)) && NonIncreasing(top)
    ensures forall i :: 0 <= i < |top| ==> top[i].1 == Count(PresentLocations(rows), top[i].0) && top[i].1 > 0
  {
    var r := ValueCounts(PresentLocations(rows));
    PrefixOfSorted(r, 15);
    PrefixSlice(r, 15)
  }

  /** A location left out of the top 15 has no more rows than any location in it. */
  lemma TopLocationsDominate(rows: seq<ChartRow>, l: string, i: int)
    requires l in PresentLocations(rows) && l !in Keys(TopLocations(rows))
    requires 0 <= i < |TopLocations(rows)|
    ensures TopLocations(rows)[i].1 >= Count(PresentLocations(rows), l)
  {
    var present := PresentLocations(rows);
    var r := ValueCounts(present);
    var top := TopLocations(rows);
    assert top == r[..|top|];
    var j := PrefixDominates(r, |top|, l, i);
    assert r[j].1 == Count(present, l);
    assert top[i] == r[i];
  }

  /** With at most 15 distinct locations, every present location is listed. */
  lemma TopLocationsComplete(rows: seq<ChartRow>, l: string)
    requires |ValueCounts(PresentLocations(rows))| <= 15 && l in PresentLocations(rows)
    ensures l in Keys(TopLocations(rows))
  {
    assert TopLocations(rows) == ValueCounts(PresentLocations(rows));
  }

  // ---------------------------------------------------------------------------
  // Months
  // ---------------------------------------------------------------------------

  /** `dt.to_period('M').astype(str)`: "YYYY-MM", or "NaT" for a missing date. */
  function MonthLabel(d: Option<ValidDate>): (s: string)
    ensures d.Some? ==> s == YearMonth(d.value)
    ensures d.None? ==> s == "NaT"
  {
    match d
    case Some(v) => YearMonth(v)
    case None => "NaT"
  }

  /** A date's label is never the missing-date label. */
  lemma LabelNotNaT(d: ValidDate)
    ensures MonthLabel(Some(d)) != MonthLabel(None)
  {
    assert |MonthLabel(Some(d))| == 7;
  }

  /** Two labels agree exactly when the first date is present and in the second's month. */
  lemma SameLabel(a: Option<ValidDate>, d: ValidDate)
    ensures MonthLabel(a) == MonthLabel(Some(d)) <==> a.Some? && a.value.year == d.year && a.value.month == d.month
  {
    if a.Some? {
      YearMonthSame(a.value, d);
    } else {
      LabelNotNaT(d);
    }
  }

  function Labels(rows: seq<ChartRow>): (ls: seq<string>)
    ensures |ls| == |rows| && forall i :: 0 <= i < |rows| ==> ls[i] == MonthLabel(rows[i].date)
  {
    seq(|rows|, i requires 0 <= i < |rows| => MonthLabel(rows[i].date))
  }

  lemma LabelsSnoc(rows: seq<ChartRow>)
    requires rows != []
    ensures Labels(rows) == Labels(rows[..|rows| - 1]) + [MonthLabel(rows[|rows| - 1].date)]
  {
  }

  /** The frame with its `year_month` column written. */
  function WithMonths(rows: seq<ChartRow>): (r: seq<ChartRow>)
    ensures |r| == |rows| && forall i :: 0 <= i < |rows| ==> r[i] == rows[i].(yearMonth := Some(MonthLabel(rows[i].date)))
  {
    seq(|rows|, i requires 0 <= i < |rows| => rows[i].(yearMonth := Some(MonthLabel(rows[i].date))))
  }

  /** Rows dated in month `m` of year `y`. */
  function RowsInMonth(rows: seq<ChartRow>, y: int, m: int): nat {
    if rows == [] then 0
    else
      var d := rows[|rows| - 1].date;
      RowsInMonth(rows[..|rows| - 1], y, m) + (if d.Some? && d.value.year == y && d.value.month == m then 1 else 0)
  }

  /** Rows without a date. */
  function Undated(rows: seq<ChartRow>): nat {
    if rows == [] then 0
    else Undated(rows[..|rows| - 1]) + (if rows[|rows| - 1].date.None? then 1 else 0)
  }

  /** The count under a month's label is the number of rows dated in that month. */
  lemma {:induction false} MonthCount(rows: seq<ChartRow>, d: ValidDate)
    ensures Count(Labels(rows), MonthLabel(Some(d))) == RowsInMonth(rows, d.year, d.month)
  {
    if rows != [] {
      var init := rows[..|rows| - 1];
      var last := rows[|rows| - 1];
      MonthCount(init, d);
      assert RowsInMonth(rows, d.year, d.month)
        == RowsInMonth(init, d.year, d.month) + (if last.date.Some? && last.date.value.year == d.year && last.date.value.month == d.month then 1 else 0);
      LabelsSnoc(rows);
      CountAppend(Labels(init), MonthLabel(last.date), MonthLabel(Some(d)));
      SameLabel(last.date, d);
    }
  }

  /** The count under "NaT" is the number of undated rows. */
  lemma {:induction false} UndatedCount(rows: seq<ChartRow>)
    ensures Count(Labels(rows), MonthLabel(None)) == Undated(rows)
  {
    if rows != [] {
      var init := rows[..|rows| - 1];
      var last := rows[|rows| - 1];
      UndatedCount(init);
      assert Undated(rows) == Undated(init) + (if last.date.None? then 1 else 0);
      LabelsSnoc(rows);
      CountAppend(Labels(init), MonthLabel(last.date), MonthLabel(None));
      if last.date.Some? {
        LabelNotNaT(last.date.value);
      }
    }
  }

  /**
   * `df.groupby('year_month').size()`: each label once, in the ascending
   * order `groupby` sorts its keys in ("NaT" after every "YYYY-MM"), with its
   * number of rows.
   */
  function MonthlySizes(labels: seq<string>): (r: seq<(string, nat)>)
    ensures Keys(r) == SortedStrings(labels)
    ensures forall i :: 0 <= i < |r| ==> r[i].1 == Count(labels, r[i].0)
  {
    var d := SortedStrings(labels);
    seq(|d|, i requires 0 <= i < |d| => (d[i], Count(labels, d[i])))
  }

  /** Zero-padded numbers of one width compare as strings as they do as numbers. */
  lemma {:induction false} PaddedLess(n: nat, m: nat, w: nat)
    requires n < Pow10(w) && m < Pow10(w)
    ensures LexLess(Padded(n, w), Padded(m, w)) <==> n < m
  {
    if w > 0 {
      var pn, pm := Padded(n / 10, w - 1), Padded(m / 10, w - 1);
      PaddedLess(n / 10, m / 10, w - 1);
      LexLessConcat(pn, [DigitChar(n % 10)], pm, [DigitChar(m % 10)]);
      DecimalPadded(n / 10, w - 1);
      DecimalPadded(m / 10, w - 1);
      assert pn == pm <==> n / 10 == m / 10;
      assert LexLess([DigitChar(n % 10)], [DigitChar(m % 10)]) <==> n % 10 < m % 10;
    }
  }

  /**
   * The sorted month labels are in calendar order, so `groupby` lists the
   * months chronologically.
   */
  lemma MonthLabelsChronological(a: ValidDate, b: ValidDate)
    ensures LexLess(MonthLabel(Some(a)), MonthLabel(Some(b))) <==> a.year < b.year || (a.year == b.year && a.month < b.month)
  {
    var ya, yb := Padded(a.year, 4), Padded(b.year, 4);
    assert Pow10(4) == 10000 && Pow10(2) == 100;
    assert YearMonth(a) == ya + ("-" + Padded(a.month, 2));
    assert YearMonth(b) == yb + ("-" + Padded(b.month, 2));
    LexLessConcat(ya, "-" + Padded(a.month, 2), yb, "-" + Padded(b.month, 2));
    LexLessConcat("-", Padded(a.month, 2), "-", Padded(b.month, 2));
    LexLessIrreflexive("-");
    PaddedLess(a.year, b.year, 4);
    PaddedLess(a.month, b.month, 2);
    DecimalPadded(a.year, 4);
    DecimalPadded(b.year, 4);
  }

  /** The undated rows' label sorts after every month's. */
  lemma NaTLast(d: ValidDate)
    ensures LexLess(MonthLabel(Some(d)), MonthLabel(None))
  {
    assert Pow10(4) == 10000;
    assert MonthLabel(Some(d))[0] == Padded(d.year, 4)[0];
  }

  /** The monthly counts of `plot_time_series` add up to the number of rows. */
  lemma MonthlyCountsSum(rows: seq<ChartRow>)
    ensures SumCounts(MonthlySizes(Labels(rows))) == |rows|
  {
    SumOverCovering(Labels(rows), SortedStrings(Labels(rows)));
  }

  // ---------------------------------------------------------------------------
  // Whole-word counting: `str.count("(?i)\\b<word>\\b")`
  // ---------------------------------------------------------------------------

  /** `\b`: a word character on exactly one side of position `i`. */
  predicate Boundary(s: string, i: int)
    requires 0 <= i <= |s|
  {
    (i > 0 && IsWordChar(s[i - 1])) != (i < |s| && IsWordChar(s[i]))
  }

  /** `w` occurs at `i`, ignoring case, with a word boundary on both ends. */
  predicate WholeWordAt(s: string, w: string, i: int) {
    && 0 <= i && i + |w| <= |s|
    && Boundary(s, i) && Boundary(s, i + |w|)
    && Lower(s[i..i + |w|]) == Lower(w)
  }

  /** Where the scan resumes after a match: past it, or one further for an empty match. */
  function Advance(w: string): nat {
    if |w| == 0 then 1 else |w|
  }

  /** The positions of the matches a left-to-right regex scan finds, starting at `i`. */
  function MatchesFrom(s: string, w: string, i: nat): (ps: seq<nat>)
    requires i <= |s| + 1
    decreases |s| + 1 - i
  {
    if i > |s| then []
    else if WholeWordAt(s, w, i) then [i] + MatchesFrom(s, w, i + Advance(w))
    else MatchesFrom(s, w, i + 1)
  }

  /** Every position the scan reports is a whole-word occurrence, and the matches do not overlap. */
  lemma {:induction false} MatchesSound(s: string, w: string, i: nat)
    requires i <= |s| + 1
    ensures forall k :: 0 <= k < |MatchesFrom(s, w, i)| ==> i <= MatchesFrom(s, w, i)[k] && WholeWordAt(s, w, MatchesFrom(s, w, i)[k])
    ensures forall k :: 0 <= k < |MatchesFrom(s, w, i)| - 1 ==> MatchesFrom(s, w, i)[k] + Advance(w) <= MatchesFrom(s, w, i)[k + 1]
    decreases |s| + 1 - i
  {
    if i <= |s| {
      if WholeWordAt(s, w, i) {
        MatchesSound(s, w, i + Advance(w));
        var rest := MatchesFrom(s, w, i + Advance(w));
        assert MatchesFrom(s, w, i) == [i] + rest;
      } else {
        MatchesSound(s, w, i + 1);
      }
    }
  }

  /** Some position of `ps` starts a stretch of `step` positions holding `j`. */
  predicate Covers(ps: seq<nat>, j: int, step: nat) {
    exists k :: 0 <= k < |ps| && ps[k] <= j < ps[k] + step
  }

  lemma CoversCons(p: nat, ps: seq<nat>, j: int, step: nat)
    requires Covers(ps, j, step)
    ensures Covers([p] + ps, j, step)
  {
    var k :| 0 <= k < |ps| && ps[k] <= j < ps[k] + step;
    assert ([p] + ps)[k + 1] == ps[k];
  }

  lemma CoverAfterMatch(s: string, w: string, i: nat, j: int)
    requires i <= |s| && WholeWordAt(s, w, i) && i <= j
    requires j >= i + Advance(w) ==> Covers(MatchesFrom(s, w, i + Advance(w)), j, Advance(w))
    ensures Covers(MatchesFrom(s, w, i), j, Advance(w))
  {
    var ps := MatchesFrom(s, w, i);
    var rest := MatchesFrom(s, w, i + Advance(w));
    assert ps == [i] + rest;
    if j < i + Advance(w) {
      assert ps[0] <= j < ps[0] + Advance(w);
    } else {
      CoversCons(i, rest, j, Advance(w));
    }
  }

  lemma CoverAfterMiss(s: string, w: string, i: nat, j: int)
    requires i <= |s| && !WholeWordAt(s, w, i)
    requires Covers(MatchesFrom(s, w, i + 1), j, Advance(w))
    ensures Covers(MatchesFrom(s, w, i), j, Advance(w))
  {
    assert MatchesFrom(s, w, i) == MatchesFrom(s, w, i + 1);
  }

  /** The scan misses no occurrence: each lies inside a match it counted. */
  lemma {:induction false} MatchesComplete(s: string, w: string, i: nat, j: int)
    requires i <= |s| + 1 && i <= j && WholeWordAt(s, w, j)
    ensures Covers(MatchesFrom(s, w, i), j, Advance(w))
    decreases |s| + 1 - i
  {
    if WholeWordAt(s, w, i) {
      if j >= i + Advance(w) {
        MatchesComplete(s, w, i + Advance(w), j);
      }
      CoverAfterMatch(s, w, i, j);
    } else {
      MatchesComplete(s, w, i + 1, j);
      CoverAfterMiss(s, w, i, j);
    }
  }

  function CountWord(s: string, w: string): nat {
    |MatchesFrom(s, w, 0)|
  }

  lemma LowerIdempotent(s: string)
    ensures Lower(Lower(s)) == Lower(s)
  {
  }

  lemma {:induction false} MatchesIgnoreCase(s: string, w: string, i: nat)
    requires i <= |s| + 1
    ensures MatchesFrom(s, Lower(w), i) == MatchesFrom(s, w, i)
    decreases |s| + 1 - i
  {
    LowerIdempotent(w);
    if i <= |s| {
      assert WholeWordAt(s, Lower(w), i) == WholeWordAt(s, w, i);
      if WholeWordAt(s, w, i) {
        MatchesIgnoreCase(s, w, i + Advance(w));
      } else {
        MatchesIgnoreCase(s, w, i + 1);
      }
    }
  }

  /** The tracked word's case does not change its count. */
  lemma CountIgnoresCase(s: string, w: string)
    ensures CountWord(s, Lower(w)) == CountWord(s, w)
  {
    MatchesIgnoreCase(s, w, 0);
  }

  // ---------------------------------------------------------------------------
  // Word frequency per month
  // ---------------------------------------------------------------------------

  /** `str.count` on one cell: a missing text gives a missing count. */
  function CellCount(t: Option<string>, w: string): Option<nat> {
    if t.Some? then Some(CountWord(t.value, w)) else None
  }

  /** The `count_<word>` column. */
  function CountsOf(rows: seq<ChartRow>, col: string, w: string): (cs: seq<Option<nat>>)
    ensures |cs| == |rows| && forall i :: 0 <= i < |rows| ==> cs[i] == CellCount(TextOf(rows[i], col), w)
  {
    seq(|rows|, i requires 0 <= i < |rows| => CellCount(TextOf(rows[i], col), w))
  }

  /** The frame with count column `name` set to `vals`. */
  function SetCounts(rows: seq<ChartRow>, name: string, vals: seq<Option<nat>>): (r: seq<ChartRow>)
    requires |vals| == |rows|
    ensures |r| == |rows|
    ensures forall i :: 0 <= i < |rows| ==> r[i] == rows[i].(counts := rows[i].counts[name := vals[i]])
  {
    seq(|rows|, i requires 0 <= i < |rows| => rows[i].(counts := rows[i].counts[name := vals[i]]))
  }

  /** The sum over the rows labelled `k`, skipping missing counts, as `groupby().sum()` does. */
  function SumFor(labels: seq<string>, counts: seq<Option<nat>>, k: string): nat
    requires |labels| == |counts|
  {
    if labels == [] then 0
    else
      var n := |labels| - 1;
      SumFor(labels[..n], counts[..n], k) + (if labels[n] == k && counts[n].Some? then counts[n].value else 0)
  }

  /** `df.groupby('year_month')[col].sum()`: each label once, with its sum. */
  function MonthlySums(labels: seq<string>, counts: seq<Option<nat>>): (r: seq<(string, nat)>)
    requires |labels| == |counts|
    ensures Keys(r) == SortedStrings(labels)
    ensures forall i :: 0 <= i < |r| ==> r[i].1 == SumFor(labels, counts, r[i].0)
  {
    var d := SortedStrings(labels);
    seq(|d|, i requires 0 <= i < |d| => (d[i], SumFor(labels, counts, d[i])))
  }

  /** Summing a column of ones per month is counting the rows per month. */
  lemma {:induction false} SumOfOnes(labels: seq<string>, counts: seq<Option<nat>>, k: string)
    requires |labels| == |counts| && forall i :: 0 <= i < |counts| ==> counts[i] == Some(1)
    ensures SumFor(labels, counts, k) == Count(labels, k)
  {
    if labels != [] {
      SumOfOnes(labels[..|labels| - 1], counts[..|counts| - 1], k);
    }
  }

  /** One row of the table the word-frequency chart draws. */
  datatype TrackerRow = TrackerRow(yearMonth: string, count: nat, word: string)

  /** The monthly table of one tracked word. */
  function WordTable(labels: seq<string>, counts: seq<Option<nat>>, w: string): (t: seq<TrackerRow>)
    requires |labels| == |counts|
    ensures |t| == |SortedStrings(labels)|
    ensures forall i :: 0 <= i < |t| ==> t[i] == TrackerRow(SortedStrings(labels)[i], SumFor(labels, counts, SortedStrings(labels)[i]), w)
  {
    var sums := MonthlySums(labels, counts);
    seq(|sums|, i requires 0 <= i < |sums| => TrackerRow(sums[i].0, sums[i].1, w))
  }

  /** The rows after the count columns of `ws` are written, in order. */
  function WithCounts(rows: seq<ChartRow>, col: string, ws: seq<string>): (r: seq<ChartRow>)
    ensures |r| == |rows| && forall i :: 0 <= i < |rows| ==> r[i].texts == rows[i].texts
  {
    if ws == [] then rows
    else
      var prev := WithCounts(rows, col, ws[..|ws| - 1]);
      var w := ws[|ws| - 1];
      SetCounts(prev, "count_" + w, CountsOf(rows, col, w))
  }

  /** The count column depends on the text columns alone. */
  lemma CountsOfSameTexts(a: seq<ChartRow>, b: seq<ChartRow>, col: string, w: string)
    requires |a| == |b| && forall i :: 0 <= i < |a| ==> a[i].texts == b[i].texts
    ensures CountsOf(a, col, w) == CountsOf(b, col, w)
  {
    assert forall i :: 0 <= i < |a| ==> TextOf(a[i], col) == TextOf(b[i], col);
  }

  /** Writing the count column of one more tracked word. */
  lemma WithCountsStep(rows: seq<ChartRow>, col: string, ws: seq<string>, k: int)
    requires 0 <= k < |ws|
    ensures WithCounts(rows, col, ws[..k + 1])
      == SetCounts(WithCounts(rows, col, ws[..k]), "count_" + ws[k], CountsOf(WithCounts(rows, col, ws[..k]), col, ws[k]))
  {
    assert ws[..k + 1][..k] == ws[..k];
    CountsOfSameTexts(WithCounts(rows, col, ws[..k]), rows, col, ws[k]);
  }

  /** `pd.concat(tracker_data)`: the tables of the tracked words, one after another. */
  function Tracker(rows: seq<ChartRow>, col: string, ws: seq<string>): seq<TrackerRow> {
    if ws == [] then []
    else
      var w := ws[|ws| - 1];
      Tracker(rows, col, ws[..|ws| - 1]) + WordTable(Labels(rows), CountsOf(rows, col, w), w)
  }

  /** Appending the table of one more tracked word. */
  lemma TrackerStep(rows: seq<ChartRow>, col: string, ws: seq<string>, k: int)
    requires 0 <= k < |ws|
    ensures Tracker(rows, col, ws[..k + 1]) == Tracker(rows, col, ws[..k]) + WordTable(Labels(rows), CountsOf(rows, col, ws[k]), ws[k])
  {
    assert ws[..k + 1][..k] == ws[..k];
  }

  /**
   * Every entry of the tracker table belongs to a tracked word, and sums that
   * word's whole-word matches over the rows of its month.
   */
  lemma {:induction false} TrackerEntries(rows: seq<ChartRow>, col: string, ws: seq<string>, e: TrackerRow)
    requires e in Tracker(rows, col, ws)
    ensures e.word in ws
    ensures e.yearMonth in Labels(rows)
    ensures e.count == SumFor(Labels(rows), CountsOf(rows, col, e.word), e.yearMonth)
  {
    var w := ws[|ws| - 1];
    var init := ws[..|ws| - 1];
    var t := WordTable(Labels(rows), CountsOf(rows, col, w), w);
    if e in Tracker(rows, col, init) {
      TrackerEntries(rows, col, init, e);
      assert e.word in ws;
    } else {
      assert e in t;
      var i :| 0 <= i < |t| && t[i] == e;
      assert SortedStrings(Labels(rows))[i] in SortedStrings(Labels(rows));
    }
  }

  // ---------------------------------------------------------------------------
  // Speech length and categories
  // ---------------------------------------------------------------------------

  /** `str(x)` of a text cell; CPython prints a missing value as "None". */
  function Str(t: Option<string>): string {
    if t.Some? then t.value else "None"
  }

  /** `len(str(x).split())` */
  function WordCount(t: Option<string>): nat {
    |Words(Str(t))|
  }

  /** A word without whitespace splits to itself alone. */
  lemma WordsOfToken(x: string)
    requires x != [] && forall k :: 0 <= k < |x| ==> !IsSpace(x[k])
    ensures Words(x) == [x]
  {
    assert TokenLength(x) == |x|;
    assert x[|x|..] == [];
    assert x[..|x|] == x;
  }

  lemma {:induction false} WordsOfTokens(ws: seq<string>)
    requires forall i :: 0 <= i < |ws| ==> ws[i] != [] && forall k :: 0 <= k < |ws[i]| ==> !IsSpace(ws[i][k])
    ensures WordsOfEach(ws) == ws
  {
    if ws != [] {
      WordsOfToken(ws[0]);
      WordsOfTokens(ws[1..]);
    }
  }

  /** A text of `n` space-separated words has word count `n`. */
  lemma WordCountOfJoin(ws: seq<string>)
    requires forall i :: 0 <= i < |ws| ==> ws[i] != [] && forall k :: 0 <= k < |ws[i]| ==> !IsSpace(ws[i][k])
    ensures WordCount(Some(Join(" ", ws))) == |ws|
  {
    WordsOfJoin(ws);
    WordsOfTokens(ws);
  }

  /** `', '.join(x) if isinstance(x, list) else str(x)` */
  function CategoriesStr(c: Categories): (s: string)
    ensures c.Other? ==> s == c.repr
    ensures c.CategoryList? && |c.items| == 1 ==> s == c.items[0]
    ensures c.CategoryList? && |c.items| > 1 ==> s == c.items[0] + ", " + Join(", ", c.items[1..])
  {
    match c
    case CategoryList(items) => Join(", ", items)
    case Other(repr) => repr
  }

  /** The `word_count` column written. */
  function WithWordCounts(rows: seq<ChartRow>, col: string): (r: seq<ChartRow>)
    ensures |r| == |rows| && forall i :: 0 <= i < |rows| ==> r[i] == rows[i].(wordCount := Some(WordCount(TextOf(rows[i], col))))
  {
    seq(|rows|, i requires 0 <= i < |rows| => rows[i].(wordCount := Some(WordCount(TextOf(rows[i], col)))))
  }

  function CategoriesColumn(rows: seq<ChartRow>): (cs: seq<string>)
    ensures |cs| == |rows| && forall i :: 0 <= i < |rows| ==> cs[i] == CategoriesStr(rows[i].categories)
  {
    seq(|rows|, i requires 0 <= i < |rows| => CategoriesStr(rows[i].categories))
  }

  // ---------------------------------------------------------------------------
  // The caller's frame
  // ---------------------------------------------------------------------------

  /** The frame handed to the plotting functions, which add columns to it. */
  class ChartFrame {
    var rows: seq<ChartRow>
    var textColumns: set<string>

    constructor (rows: seq<ChartRow>, textColumns: set<string>)
      ensures this.rows == rows && this.textColumns == textColumns
    {
      this.rows := rows;
      this.textColumns := textColumns;
    }

    /** `plot_time_series`: writes `year_month` and counts the rows of each month. */
    method PlotTimeSeries() returns (speechesPerMonth: seq<(string, nat)>)
      modifies this
      ensures rows == WithMonths(old(rows)) && textColumns == old(textColumns)
      ensures speechesPerMonth == MonthlySizes(Labels(old(rows)))
    {
      var months := Labels(rows);
      rows := WithMonths(rows);
      speechesPerMonth := MonthlySizes(months);
    }

    /**
     * `plot_word_frequency`: nothing for no tracked words; otherwise writes
     * `year_month`, then one `count_<word>` column per tracked word, and
     * gathers the monthly sums of each.
     */
    method PlotWordFrequency(textColumn: string, trackedWords: seq<string>) returns (r: Result<seq<TrackerRow>>)
      modifies this
      ensures textColumns == old(textColumns)
      ensures trackedWords == [] ==> rows == old(rows) && r == Ok([])
      ensures trackedWords != [] && textColumn !in textColumns ==>
        rows == WithMonths(old(rows)) && r == Err(KeyError([textColumn]))
      ensures trackedWords != [] && textColumn in textColumns ==>
        && rows == WithCounts(WithMonths(old(rows)), textColumn, trackedWords)
        && r == Ok(Tracker(old(rows), textColumn, trackedWords))
    {
      if trackedWords == [] {
        return Ok([]);
      }
      var months := Labels(rows);
      rows := WithMonths(rows);
      if textColumn !in textColumns {
        return Err(KeyError([textColumn]));
      }
      ghost var start := rows;
      var trackerData: seq<TrackerRow> := [];
      var k := 0;
      while k < |trackedWords|
        invariant 0 <= k <= |trackedWords|
        invariant textColumns == old(textColumns)
        invariant rows == WithCounts(start, textColumn, trackedWords[..k])
        invariant trackerData == Tracker(old(rows), textColumn, trackedWords[..k])
      {
        var word := trackedWords[k];
        var counts := CountsOf(rows, textColumn, word);
        WithCountsStep(start, textColumn, trackedWords, k);
        TrackerStep(old(rows), textColumn, trackedWords, k);
        CountsOfSameTexts(rows, old(rows), textColumn, word);
        rows := SetCounts(rows, "count_" + word, counts);
        var dailyCounts := WordTable(months, counts, word);
        trackerData := trackerData + dailyCounts;
        k := k + 1;
      }
      assert trackedWords[..k] == trackedWords;
      r := Ok(trackerData);
    }

    /**
     * `plot_speech_length`: writes `word_count`; the `categories_str` labels go
     * to a copy of the frame, returned here.
     */
    method PlotSpeechLength(textColumn: string) returns (r: Result<seq<string>>)
      modifies this
      ensures textColumns == old(textColumns)
      ensures textColumn !in textColumns ==> rows == old(rows) && r == Err(KeyError([textColumn]))
      ensures textColumn in textColumns ==>
        rows == WithWordCounts(old(rows), textColumn) && r == Ok(CategoriesColumn(old(rows)))
    {
      if textColumn !in textColumns {
        return Err(KeyError([textColumn]));
      }
      rows := WithWordCounts(rows, textColumn);
      var dfPlot := rows;
      assert CategoriesColumn(dfPlot) == CategoriesColumn(old(rows));
      r := Ok(CategoriesColumn(dfPlot));
    }
  }
}
