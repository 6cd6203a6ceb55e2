/**
 * The state map of the dashboard: the state code read off each stored
 * location, and the number of speeches per state the map is coloured by.
 */
module MapViz {
  import opened Wrappers
  import opened Text
  import opened Tally
  import opened Frames
  import opened AppData

  /** The text after the last `c`, `s.split(c)[-1]`. */
  function LastPiece(s: string, c: char): string {
    var parts := Split(s, c);
    parts[|parts| - 1]
  }

  lemma LastPieceAfter(a: string, b: string, c: char)
    requires c !in b
    ensures LastPiece(a + [c] + b, c) == b
  {
    SplitLastPiece(a, b, c);
  }

  /**
   * `get_state`: the stripped text after the last comma when it is two
   * upper-case characters, otherwise the whole location when it is; no check
   * against a list of codes.
   */
  function GetState(loc: Option<string>): (state: Option<string>)
    ensures loc.None? ==> state.None?
    ensures state.Some? ==> |state.value| == 2 && IsUpper(state.value)
  {
    if loc.None? then None
    else
      var s := loc.value;
      var candidate := Strip(LastPiece(s, ','));
      if ',' in s && |candidate| == 2 && IsUpper(candidate) then Some(candidate)
      else if |s| == 2 && IsUpper(s) then Some(s)
      else None
  }

  /** With a comma, the piece after the last comma decides, with the whole text as fallback. */
  lemma GetStateComma(a: string, b: string)
    requires ',' !in b
    ensures var s := a + [','] + b;
      GetState(Some(s)) ==
        if |Strip(b)| == 2 && IsUpper(Strip(b)) then Some(Strip(b))
        else if |s| == 2 && IsUpper(s) then Some(s)
        else None
  {
    LastPieceAfter(a, b, ',');
    assert (a + [','] + b)[|a|] == ',';
  }

  /** Without a comma, only a two-character upper-case location is a state. */
  lemma GetStateNoComma(s: string)
    requires ',' !in s
    ensures GetState(Some(s)) == if |s| == 2 && IsUpper(s) then Some(s) else None
  {
  }

  /** `strip()` of a blank followed by text with non-space ends is that text. */
  lemma StripBlankBefore(c: string)
    requires c != [] && !IsSpace(c[0]) && !IsSpace(c[|c| - 1])
    ensures Strip([' '] + c) == c
  {
    var s := [' '] + c;
    assert s[1..] == c;
    assert LeadingSpaces(s) == 1 + LeadingSpaces(c);
    StripIdentity(c);
  }

  /** Any two capital letters after ", " are taken as the state, whether or not they are a code. */
  lemma TownAndLetters(town: string, code: string)
    requires |code| == 2 && IsAsciiUpper(code[0]) && IsAsciiUpper(code[1])
    ensures GetState(Some(town + ", " + code)) == Some(code)
  {
    assert town + ", " + code == town + [','] + ([' '] + code);
    StripBlankBefore(code);
    GetStateComma(town, [' '] + code);
  }

  /** A two-character text with a comma can still pass the fallback test: ",A" is returned as a state. */
  lemma CommaFallback()
    ensures GetState(Some(",A")) == Some(",A")
  {
    assert ",A" == [] + [','] + "A";
    GetStateComma([], "A");
    assert IsUpper(",A") by {
      assert IsAsciiUpper(",A"[1]);
    }
  }

  /** A comma-free location longer than two characters has no state; "Abroad" and "Unknown" among them. */
  lemma NoStateWithoutComma(s: string)
    requires ',' !in s && |s| != 2
    ensures GetState(Some(s)).None?
  {
  }

  lemma PlaceholdersHaveNoState()
    ensures GetState(Some("Abroad")).None? && GetState(Some("Unknown")).None?
  {
    NoStateWithoutComma("Abroad");
    NoStateWithoutComma("Unknown");
  }

  /** The `state` column of the rows that have one, in row order (`df_us['state']`). */
  function States(rows: seq<Speech>): (states: seq<string>)
    ensures |states| <= |rows|
    decreases |rows|
  {
    if rows == [] then []
    else
      var first := GetState(rows[0].location);
      (if first.Some? then [first.value] else []) + States(rows[1..])
  }

  /** Whether a row has a state, `df_map['state'].notna()`. */
  predicate Mapped(r: Speech) {
    GetState(r.location).Some?
  }

  /** The rows with state `s`. */
  function InState(s: string): Speech -> bool {
    (r: Speech) => GetState(r.location) == Some(s)
  }

  function RowsIn(rows: seq<Speech>, s: string): seq<Speech> {
    Where(rows, InState(s))
  }

  /** The state column holds one entry per row with that state. */
  lemma {:induction false} StatesCount(rows: seq<Speech>, s: string)
    ensures Count(States(rows), s) == |RowsIn(rows, s)|
    decreases |rows|
  {
    if rows != [] {
      StatesCount(rows[1..], s);
      var first := GetState(rows[0].location);
      var head := if first.Some? then [first.value] else [];
      CountConcat(head, States(rows[1..]), s);
      assert Count(head, s) == if first == Some(s) then 1 else 0 by {
        if first.Some? {
          assert head == [] + [first.value];
        }
      }
    }
  }

  /** The rows kept for the map are the rows with a state. */
  lemma {:induction false} StatesLength(rows: seq<Speech>)
    ensures |States(rows)| == |Where(rows, Mapped)|
    decreases |rows|
  {
    if rows != [] {
      StatesLength(rows[1..]);
    }
  }

  /** No state column entry exactly when no row has a state. */
  lemma {:induction false} StatesEmpty(rows: seq<Speech>)
    ensures States(rows) == [] <==> forall i :: 0 <= i < |rows| ==> GetState(rows[i].location).None?
    decreases |rows|
  {
    if rows != [] {
      StatesEmpty(rows[1..]);
      assert forall i :: 1 <= i < |rows| ==> rows[i] == rows[1..][i - 1];
    }
  }

  /** What `render_map` shows. */
  datatype MapView =
    | NoData
    | NoUsLocations
    | StateMap(counts: seq<(string, nat)>, total: nat)

  /** `render_map` without the drawing: the early returns, the per-state counts and the total in the title. */
  function RenderMap(rows: seq<Speech>): (v: MapView)
    ensures rows == [] <==> v == NoData
    ensures v == NoUsLocations <==> rows != [] && forall i :: 0 <= i < |rows| ==> GetState(rows[i].location).None?
    ensures v.StateMap? ==>
      && v.total == |Where(rows, Mapped)| > 0
      && NoDuplicates(Keys(v.counts))
      && (forall s :: s in Keys(v.counts) <==> s in States(rows))
      && (forall i :: 0 <= i < |v.counts| ==> v.counts[i].1 == |RowsIn(rows, v.counts[i].0)| > 0)
      && SumCounts(v.counts) == v.total
  {
    StatesLength(rows);
    StatesEmpty(rows);
    var states := States(rows);
    if rows == [] then NoData
    else if states == [] then NoUsLocations
    else
      var counts := ValueCounts(states);
      assert forall i :: 0 <= i < |counts| ==> counts[i].1 == |RowsIn(rows, counts[i].0)| by {
        forall i | 0 <= i < |counts| ensures counts[i].1 == |RowsIn(rows, counts[i].0)| {
          StatesCount(rows, counts[i].0);
        }
      }
      StateMap(counts, |states|)
  }
}
