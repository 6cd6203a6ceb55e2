/**
 * The sidebar filters of the dashboard: the region presets a stored location
 * is classified into, the date presets, the category union and the
 * banned-word list, and the mask that combines them into the filtered frame.
 */
module Filters {
  import opened Wrappers
  import opened Text
  import opened Dates
  import opened Frames
  import opened AppData

  // The region lists and the set of codes, as membership tests on their
  // literal contents: a code belongs to a list exactly when it is one of the
  // entries written there.

  predicate IsWestCoast(c: string) { c in ["CA", "OR", "WA"] }

  predicate IsEastCoast(c: string) {
    c in ["ME", "NH", "MA", "RI", "CT", "NY", "NJ", "DE", "MD", "VA", "NC", "SC", "GA", "FL"]
  }

  predicate IsNonContiguous(c: string) { c in ["AK", "HI"] }

  predicate IsBlueState(c: string) {
    c in [
      "CA", "OR", "WA", "NV", "AZ", "NM", "CO",
      "MN", "IL", "MI", "WI",
      "NY", "VT", "ME", "MA", "RI", "CT",
      "NJ", "DE", "MD", "DC", "HI", "VA"]
  }

  predicate IsRedState(c: string) {
    c in [
      "ID", "MT", "WY", "UT",
      "ND", "SD", "NE", "KS", "OK",
      "TX", "MO", "AR", "LA",
      "IN", "KY", "TN", "MS", "AL",
      "WV", "SC", "AK"]
  }

  predicate IsSwingState(c: string) { c in ["PA", "GA", "NC", "FL", "OH", "IA"] }

  /** Membership in the set of the 50 state codes and DC that a detected state is validated against. */
  predicate IsUsState(c: string) {
    c in {
      "AL", "AK", "AZ", "AR", "CA", "CO", "CT", "DE", "FL", "GA",
      "HI", "ID", "IL", "IN", "IA", "KS", "KY", "LA", "ME", "MD",
      "MA", "MI", "MN", "MS", "MO", "MT", "NE", "NV", "NH", "NJ",
      "NM", "NY", "NC", "ND", "OH", "OK", "OR", "PA", "RI", "SC",
      "SD", "TN", "TX", "UT", "VT", "VA", "WA", "WV", "WI", "WY", "DC"}
  }

  // ---------------------------------------------------------------------------
  // Region presets
  // ---------------------------------------------------------------------------

  /**
   * The location pill. `Deselected` is the value of a pill group with nothing
   * selected, which is not "All" and matches none of the named presets.
   */
  datatype LocationPreset =
    | All | WestCoast | EastCoast | MiddleState | NonContiguous
    | BlueState | RedState | SwingState | Abroad | Deselected

  /** The state a stripped location names, if any. */
  function DetectState(loc: string): (state: Option<string>)
    ensures state.Some? ==> IsUsState(state.value)
  {
    var parts := Split(loc, ',');
    if |parts| > 1 then
      var candidate := Upper(Strip(parts[|parts| - 1]));
      if IsUsState(candidate) then Some(candidate) else None
    else if IsUsState(Upper(loc)) then Some(Upper(loc))
    else None
  }

  /** With a comma, the state is read from the text after the last comma alone. */
  lemma DetectStateComma(a: string, b: string)
    requires ',' !in b
    ensures DetectState(a + [','] + b) == if IsUsState(Upper(Strip(b))) then Some(Upper(Strip(b))) else None
  {
    SplitLastPiece(a, b, ',');
  }

  /** Without a comma, the state is the whole location, upper-cased, when that is a code. */
  lemma DetectStateNoComma(loc: string)
    requires ',' !in loc
    ensures DetectState(loc) == if IsUsState(Upper(loc)) then Some(Upper(loc)) else None
  {
    SplitWithoutSeparator(loc, ',');
  }

  /** A text with a comma has at least two pieces. */
  lemma SplitHasComma(s: string)
    requires ',' in s
    ensures |Split(s, ',')| > 1
  {
    var i :| 0 <= i < |s| && s[i] == ',';
    assert s == s[..i] + [','] + s[i + 1..];
    SplitAfterPrefixAny(s[..i], s[i + 1..]);
  }

  lemma {:induction false} SplitAfterPrefixAny(a: string, b: string)
    ensures |Split(a + [','] + b, ',')| > 1
    decreases |a|
  {
    if |a| == 0 {
      assert a + [','] + b == [','] + b;
      assert ([','] + b)[1..] == b;
    } else {
      var s := a + [','] + b;
      assert s[1..] == a[1..] + [','] + b;
      SplitAfterPrefixAny(a[1..], b);
    }
  }

  /** `filter_location`: whether a stored location passes the chosen preset. */
  function FilterLocation(preset: LocationPreset, loc: Option<string>): (keep: bool)
    ensures loc.None? ==> !keep
  {
    if loc.None? then false
    else
      var s := Strip(loc.value);
      var state := DetectState(s);
      if preset == Abroad then state.None? && s != "Unknown"
      else if state.None? then false
      else match preset
        case WestCoast => IsWestCoast(state.value)
        case EastCoast => IsEastCoast(state.value)
        case NonContiguous => IsNonContiguous(state.value)
        case MiddleState =>
          !IsWestCoast(state.value) && !IsEastCoast(state.value) && !IsNonContiguous(state.value)
        case BlueState => IsBlueState(state.value)
        case RedState => IsRedState(state.value)
        case SwingState => IsSwingState(state.value)
        case _ => true
  }

  /** The state `FilterLocation` works with. */
  function StateOf(loc: string): Option<string> {
    DetectState(Strip(loc))
  }

  /** "Abroad" takes a location exactly when no state is found and it is not the "Unknown" placeholder. */
  lemma AbroadPreset(loc: string)
    ensures FilterLocation(Abroad, Some(loc)) <==> StateOf(loc).None? && Strip(loc) != "Unknown"
  {
  }

  /** Every preset other than "Abroad" needs a detected state. */
  lemma UsPresetNeedsState(preset: LocationPreset, loc: string)
    requires preset != Abroad && FilterLocation(preset, Some(loc))
    ensures StateOf(loc).Some?
  {
  }

  lemma GeographicDisjoint()
    ensures forall c :: IsWestCoast(c) ==> !IsEastCoast(c) && !IsNonContiguous(c)
    ensures forall c :: IsEastCoast(c) ==> !IsNonContiguous(c)
  {
  }

  /**
   * A location with a state passes exactly one of the four geographic presets,
   * and one without a state passes none of them.
   */
  lemma GeographicPartition(loc: string)
    ensures var w, e, m, n := FilterLocation(WestCoast, Some(loc)), FilterLocation(EastCoast, Some(loc)),
                            FilterLocation(MiddleState, Some(loc)), FilterLocation(NonContiguous, Some(loc));
      (w || e || m || n <==> StateOf(loc).Some?)
      && !(w && e) && !(w && m) && !(w && n) && !(e && m) && !(e && n) && !(m && n)
  {
    GeographicDisjoint();
  }

  lemma BlueNotRedA(c: string)
    requires c == "CA" || c == "OR" || c == "WA" || c == "NV" || c == "AZ" || c == "NM"
    ensures !IsRedState(c)
  {
  }

  lemma BlueNotRedB(c: string)
    requires c == "CO" || c == "MN" || c == "IL" || c == "MI" || c == "WI" || c == "NY"
    ensures !IsRedState(c)
  {
  }

  lemma BlueNotRedC(c: string)
    requires c == "VT" || c == "ME" || c == "MA" || c == "RI" || c == "CT" || c == "NJ"
    ensures !IsRedState(c)
  {
  }

  lemma BlueNotRedD(c: string)
    requires c == "DE" || c == "MD" || c == "DC" || c == "HI" || c == "VA"
    ensures !IsRedState(c)
  {
  }

  lemma BlueNotRed(c: string)
    requires IsBlueState(c)
    ensures !IsRedState(c)
  {
    if c == "CA" || c == "OR" || c == "WA" || c == "NV" || c == "AZ" || c == "NM" {
      BlueNotRedA(c);
    } else if c == "CO" || c == "MN" || c == "IL" || c == "MI" || c == "WI" || c == "NY" {
      BlueNotRedB(c);
    } else if c == "VT" || c == "ME" || c == "MA" || c == "RI" || c == "CT" || c == "NJ" {
      BlueNotRedC(c);
    } else {
      BlueNotRedD(c);
    }
  }

  lemma BlueNotSwing(c: string)
    requires IsBlueState(c)
    ensures !IsSwingState(c)
  {
  }

  lemma RedNotSwing(c: string)
    requires IsRedState(c)
    ensures !IsSwingState(c)
  {
  }

  /** No two of the political lists share a code. */
  lemma PoliticalDisjoint()
    ensures forall c :: IsBlueState(c) ==> !IsRedState(c) && !IsSwingState(c)
    ensures forall c :: IsRedState(c) ==> !IsSwingState(c)
  {
    forall c | IsBlueState(c)
      ensures !IsRedState(c) && !IsSwingState(c)
    {
      BlueNotRed(c);
      BlueNotSwing(c);
    }
    forall c | IsRedState(c)
      ensures !IsSwingState(c)
    {
      RedNotSwing(c);
    }
  }

  /** New Hampshire is on none of the political lists. */
  lemma NewHampshireUnlisted()
    ensures !IsBlueState("NH") && !IsRedState("NH") && !IsSwingState("NH")
  {
  }

  /** The political lists cover every code but New Hampshire. */
  lemma PoliticalCover(c: string)
    requires IsUsState(c)
    ensures IsBlueState(c) || IsRedState(c) || IsSwingState(c) <==> c != "NH"
  {
    NewHampshireUnlisted();
  }

  /** Every entry of the geographic lists is a code, so each of those presets can be met. */
  lemma GeographicListsAreCodes(c: string)
    ensures IsWestCoast(c) || IsEastCoast(c) || IsNonContiguous(c) ==> IsUsState(c)
  {
  }

  /** Every entry of the political lists is a code. */
  lemma PoliticalListsAreCodes(c: string)
    ensures IsBlueState(c) || IsRedState(c) || IsSwingState(c) ==> IsUsState(c)
  {
    if IsBlueState(c) {
      BlueStatesAreCodes(c);
    } else if IsRedState(c) {
      RedStatesAreCodes(c);
    }
  }

  lemma BlueStatesAreCodes(c: string)
    requires IsBlueState(c)
    ensures IsUsState(c)
  {
  }

  lemma RedStatesAreCodes(c: string)
    requires IsRedState(c)
    ensures IsUsState(c)
  {
  }

  /**
   * A location with a state other than NH passes exactly one of the three
   * political presets; an NH location passes none.
   */
  lemma PoliticalPartition(loc: string)
    ensures var b, r, s := FilterLocation(BlueState, Some(loc)), FilterLocation(RedState, Some(loc)),
                         FilterLocation(SwingState, Some(loc));
      (b || r || s <==> StateOf(loc).Some? && StateOf(loc).value != "NH")
      && !(b && r) && !(b && s) && !(r && s)
  {
    PoliticalDisjoint();
    if StateOf(loc).Some? {
      PoliticalCover(StateOf(loc).value);
    }
  }

  /** A deselected pill keeps exactly the locations with a state. */
  lemma DeselectedPreset(loc: string)
    ensures FilterLocation(Deselected, Some(loc)) <==> StateOf(loc).Some?
  {
  }

  /** The mask entry of a row under the location pill; "All" keeps every row. */
  predicate LocationKeeps(preset: LocationPreset, row: Speech) {
    preset == All || FilterLocation(preset, row.location)
  }

  // ---------------------------------------------------------------------------
  // Date presets
  // ---------------------------------------------------------------------------

  datatype DatePreset = AllTime | Last3Years | After2013

  /** The day number of the earliest dated row; `None` when every date is missing. */
  function MinDay(rows: seq<Speech>): (m: Option<int>)
    ensures m.None? <==> forall i :: 0 <= i < |rows| ==> rows[i].date.None?
    ensures m.Some? ==> (exists i :: 0 <= i < |rows| && rows[i].date.Some? && Ordinal(rows[i].date.value) == m.value)
    ensures m.Some? ==> forall i :: 0 <= i < |rows| && rows[i].date.Some? ==> m.value <= Ordinal(rows[i].date.value)
  {
    if rows == [] then None
    else
      var rest := MinDay(rows[1..]);
      assert forall i :: 1 <= i < |rows| ==> rows[i] == rows[1..][i - 1];
      if rows[0].date.None? then rest
      else
        var d := Ordinal(rows[0].date.value);
        if rest.None? || d <= rest.value then Some(d) else rest
  }

  /** The day number of the latest dated row; `None` when every date is missing. */
  function MaxDay(rows: seq<Speech>): (m: Option<int>)
    ensures m.None? <==> forall i :: 0 <= i < |rows| ==> rows[i].date.None?
    ensures m.Some? ==> (exists i :: 0 <= i < |rows| && rows[i].date.Some? && Ordinal(rows[i].date.value) == m.value)
    ensures m.Some? ==> forall i :: 0 <= i < |rows| && rows[i].date.Some? ==> Ordinal(rows[i].date.value) <= m.value
  {
    if rows == [] then None
    else
      var rest := MaxDay(rows[1..]);
      assert forall i :: 1 <= i < |rows| ==> rows[i] == rows[1..][i - 1];
      if rows[0].date.None? then rest
      else
        var d := Ordinal(rows[0].date.value);
        if rest.None? || d >= rest.value then Some(d) else rest
  }

  /** 2014-01-01, the start of "After 2013". */
  const START_2014: int := 735234

  lemma Start2014()
    ensures Ordinal(Date(2014, 1, 1)) == START_2014
  {
  }

  /** The first day kept: the earliest date, 1095 days before the latest, or 2014-01-01. */
  function StartDay(preset: DatePreset, minDay: int, maxDay: int): (start: int)
    ensures preset == AllTime ==> start == minDay
    ensures preset == Last3Years ==> start == maxDay - 365 * 3
    ensures preset == After2013 ==> start == Ordinal(Date(2014, 1, 1))
  {
    Start2014();
    match preset
      case AllTime => minDay
      case Last3Years => maxDay - 365 * 3
      case After2013 => START_2014
  }

  /**
   * The date mask entry of a row: inclusive between the start of the preset and
   * the latest date. A missing date (or a frame with no dates at all) fails the
   * comparisons.
   */
  predicate DateKeeps(preset: DatePreset, lo: Option<int>, hi: Option<int>, row: Speech) {
    row.date.Some? && lo.Some? && hi.Some?
    && StartDay(preset, lo.value, hi.value) <= Ordinal(row.date.value) <= hi.value
  }

  /** "All Time" keeps every dated row of the frame. */
  lemma AllTimeKeepsDated(rows: seq<Speech>, i: int)
    requires 0 <= i < |rows|
    ensures DateKeeps(AllTime, MinDay(rows), MaxDay(rows), rows[i]) <==> rows[i].date.Some?
  {
  }

  /** "After 2013" keeps exactly the rows dated in 2014 or later. */
  lemma After2013Keeps(rows: seq<Speech>, i: int)
    requires 0 <= i < |rows|
    ensures DateKeeps(After2013, MinDay(rows), MaxDay(rows), rows[i]) <==> rows[i].date.Some? && rows[i].date.value.year >= 2014
  {
    if rows[i].date.Some? {
      OnOrAfterYearStart(rows[i].date.value, 2014);
    }
  }

  /** "Last 3 Years" keeps exactly the rows at most 1095 days older than the latest one. */
  lemma Last3YearsKeeps(rows: seq<Speech>, i: int)
    requires 0 <= i < |rows|
    ensures DateKeeps(Last3Years, MinDay(rows), MaxDay(rows), rows[i]) <==>
      rows[i].date.Some? && MaxDay(rows).value - Ordinal(rows[i].date.value) <= 1095
  {
  }

  // ---------------------------------------------------------------------------
  // Categories and banned words
  // ---------------------------------------------------------------------------

  /** The categories of the chosen groups, as the loop at filters.py:105-107 gathers them. */
  method CategoriesFromGroups(groups: map<string, seq<string>>, selected: seq<string>) returns (cats: set<string>)
    ensures forall c :: c in cats <==>
      exists i :: 0 <= i < |selected| && selected[i] in groups && c in groups[selected[i]]
  {
    cats := {};
    var k := 0;
    while k < |selected|
      invariant 0 <= k <= |selected|
      invariant forall c :: c in cats <==>
        exists i :: 0 <= i < k && selected[i] in groups && c in groups[selected[i]]
    {
      var members := if selected[k] in groups then groups[selected[k]] else [];
      cats := cats + set c | c in members;
      k := k + 1;
    }
  }

  /** The category mask entry: no selection keeps everything, otherwise one shared category is enough. */
  predicate CategoryKeeps(chosen: set<string>, row: Speech) {
    chosen == {} || exists j :: 0 <= j < |row.categories| && row.categories[j] in chosen
  }

  /** The banned words: the comma-separated pieces of the input, each stripped. */
  function BannedWords(input: string): (ws: seq<string>)
    ensures input == "" ==> ws == []
  {
    if input == "" then []
    else
      var pieces := Split(input, ',');
      seq(|pieces|, i requires 0 <= i < |pieces| => Strip(pieces[i]))
  }

  /**
   * Each banned word is a stripped, comma-free piece, and the pieces, put back
   * together with commas, are the input.
   */
  lemma BannedWordsPieces(input: string)
    requires input != ""
    ensures var ws := BannedWords(input); var pieces := Split(input, ',');
      |ws| == |pieces| && Join(",", pieces) == input
      && forall i :: 0 <= i < |ws| ==> ws[i] == Strip(pieces[i]) && ',' !in ws[i] && Strip(ws[i]) == ws[i]
  {
    var pieces := Split(input, ',');
    SplitJoin(input, ',');
    SplitPiecesLackSeparator(input, ',');
    forall i | 0 <= i < |pieces|
      ensures ',' !in Strip(pieces[i]) && Strip(Strip(pieces[i])) == Strip(pieces[i])
    {
      StripShape(pieces[i]);
      StripIdempotent(pieces[i]);
    }
  }

  // ---------------------------------------------------------------------------
  // The combined mask
  // ---------------------------------------------------------------------------

  /** Whether a row survives all three filters. */
  predicate Keeps(datePreset: DatePreset, lo: Option<int>, hi: Option<int>, chosen: set<string>,
                  locationPreset: LocationPreset, row: Speech)
  {
    DateKeeps(datePreset, lo, hi, row) && CategoryKeeps(chosen, row) && LocationKeeps(locationPreset, row)
  }

  function Keep(datePreset: DatePreset, lo: Option<int>, hi: Option<int>, chosen: set<string>,
                locationPreset: LocationPreset): Speech -> bool
  {
    r => Keeps(datePreset, lo, hi, chosen, locationPreset, r)
  }

  /**
   * The filtering half of `render_filters`: the date mask, narrowed by the
   * category mask when categories are chosen and by the location mask when the
   * pill is not "All", then applied to the frame; with the banned-word list.
   */
  method RenderFilters(rows: seq<Speech>, datePreset: DatePreset,
                       groups: map<string, seq<string>>, selectedGroups: seq<string>,
                       selectedCategories: seq<string>, locationPreset: LocationPreset,
                       bannedInput: string)
    returns (filtered: seq<Speech>, chosen: set<string>, banned: seq<string>)
    ensures forall c :: c in chosen <==>
      c in selectedCategories
      || exists i :: 0 <= i < |selectedGroups| && selectedGroups[i] in groups && c in groups[selectedGroups[i]]
    ensures filtered == Where(rows, Keep(datePreset, MinDay(rows), MaxDay(rows), chosen, locationPreset))
    ensures banned == BannedWords(bannedInput)
  {
    banned := BannedWords(bannedInput);
    chosen := SelectedCategories(groups, selectedGroups, selectedCategories);
    filtered := ApplyFilters(rows, datePreset, MinDay(rows), MaxDay(rows), chosen, locationPreset);
  }

  /**
   * The mask of `render_filters`, for the date bounds `lo` and `hi`: the date mask, narrowed by the category mask
   * when categories are chosen and by the location mask when the pill is not
   * "All", then applied to the frame.
   */
  method ApplyFilters(rows: seq<Speech>, datePreset: DatePreset, lo: Option<int>, hi: Option<int>,
                      chosen: set<string>, locationPreset: LocationPreset)
    returns (filtered: seq<Speech>)
    ensures filtered == Where(rows, Keep(datePreset, lo, hi, chosen, locationPreset))
  {
    var dates := (r: Speech) => DateKeeps(datePreset, lo, hi, r);
    var mask := MaskOf(rows, dates);
    var categories := (r: Speech) => CategoryKeeps(chosen, r);
    ghost var keep := dates;
    if chosen != {} {
      NarrowMask(rows, mask, keep, categories);
      mask := And(mask, MaskOf(rows, categories));
    } else {
      SkipMask(rows, mask, keep, categories);
    }
    keep := Both(keep, categories);
    var places := (r: Speech) => LocationKeeps(locationPreset, r);
    if locationPreset != All {
      NarrowMask(rows, mask, keep, places);
      mask := And(mask, MaskOf(rows, places));
    } else {
      SkipMask(rows, mask, keep, places);
    }
    keep := Both(keep, places);
    SelectMask(rows, keep);
    filtered := Select(rows, mask);
    WhereSame(rows, keep, Keep(datePreset, lo, hi, chosen, locationPreset));
  }

  /** The selected categories: the union of the chosen groups' members and the individually chosen ones. */
  method SelectedCategories(groups: map<string, seq<string>>, selectedGroups: seq<string>,
                            selectedCategories: seq<string>)
    returns (chosen: set<string>)
    ensures forall c :: c in chosen <==>
      c in selectedCategories
      || exists i :: 0 <= i < |selectedGroups| && selectedGroups[i] in groups && c in groups[selectedGroups[i]]
  {
    var fromGroups := CategoriesFromGroups(groups, selectedGroups);
    chosen := fromGroups + set c | c in selectedCategories;
  }

  /** Every row of the filtered frame passes each filter, and every passing row is kept. */
  lemma FilteredRows(rows: seq<Speech>, datePreset: DatePreset, lo: Option<int>, hi: Option<int>,
                     chosen: set<string>, locationPreset: LocationPreset, r: Speech)
    ensures r in Where(rows, Keep(datePreset, lo, hi, chosen, locationPreset)) <==>
      r in rows && DateKeeps(datePreset, lo, hi, r) && CategoryKeeps(chosen, r) && LocationKeeps(locationPreset, r)
  {
  }
}
