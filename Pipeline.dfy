/**
 * How the stages fit together: a location standardised by the update script
 * is read back by the dashboard's region filter and by its state map.
 */
module Pipeline {
  import opened Wrappers
  import opened Text
  import opened Locations
  import Filters
  import MapViz

  /** The code tables of the update script and of the dashboard hold the same 51 codes. */
  lemma SameCodes(c: string)
    ensures IsStateCode(c) <==> Filters.IsUsState(c)
  {
  }

  /** The state a standardised location names: itself when it is a code, else its last two characters. */
  function CodeOf(r: string): (code: string)
    requires IsStateCode(r) || IsTownForm(r)
    ensures IsStateCode(code)
  {
    if IsStateCode(r) then r else r[|r| - 2..]
  }

  lemma CodeIsUpper(code: string)
    requires |code| == 2 && IsAsciiUpper(code[0]) && IsAsciiUpper(code[1])
    ensures IsUpper(code) && Upper(code) == code
    ensures !IsSpace(code[0]) && !IsSpace(code[1]) && code[0] != ',' && code[1] != ','
  {
    UpperIdentity(code);
  }

  /** A bare code is read back as itself by both the filter and the map. */
  lemma BareCodeRead(r: string)
    requires IsStateCode(r)
    ensures MapViz.GetState(Some(r)) == Some(r)
    ensures Filters.StateOf(r) == Some(r)
  {
    CodeIsUpper(r);
    assert ',' !in r;
    MapViz.GetStateNoComma(r);
    StripIdentity(r);
    Filters.DetectStateNoComma(r);
    SameCodes(r);
  }

  /** The last two characters of a town form, after ", ". */
  lemma TownFormPieces(r: string)
    requires IsTownForm(r)
    ensures var code := r[|r| - 2..];
      |code| == 2 && IsAsciiUpper(code[0]) && IsAsciiUpper(code[1]) && IsStateCode(code)
      && r == r[..|r| - 4] + [','] + ([' '] + code)
      && r[|r| - 4] == ',' && r[|r| - 3..] == [' '] + code
  {
  }

  /** The map reads a "<town>, <code>" form as its code. */
  lemma TownFormMapped(r: string)
    requires IsTownForm(r)
    ensures MapViz.GetState(Some(r)) == Some(r[|r| - 2..])
  {
    var code := r[|r| - 2..];
    TownFormPieces(r);
    CodeIsUpper(code);
    var tail := [' '] + code;
    assert ',' !in tail by {
      assert tail == [' ', code[0], code[1]];
    }
    MapViz.StripBlankBefore(code);
    MapViz.GetStateComma(r[..|r| - 4], tail);
  }

  /** The region filter reads the code after the last ", ". */
  lemma DetectTownCode(a: string, code: string)
    requires |code| == 2 && IsAsciiUpper(code[0]) && IsAsciiUpper(code[1]) && Filters.IsUsState(code)
    ensures Filters.DetectState(a + [','] + ([' '] + code)) == Some(code)
  {
    CodeIsUpper(code);
    var tail := [' '] + code;
    assert ',' !in tail by {
      assert tail == [' ', code[0], code[1]];
    }
    MapViz.StripBlankBefore(code);
    Filters.DetectStateComma(a, tail);
  }

  /** The region filter reads a "<town>, <code>" form as its code. */
  lemma TownFormFiltered(r: string)
    requires IsTownForm(r)
    ensures Filters.StateOf(r) == Some(r[|r| - 2..])
  {
    var code := r[|r| - 2..];
    TownFormPieces(r);
    SameCodes(code);
    StripAround(r, |r| - 4);
    DetectTownCode(r[LeadingSpaces(r)..|r| - 4], code);
  }

  /** A "<town>, <code>" form is read back as its code by both the filter and the map. */
  lemma TownFormRead(r: string)
    requires IsTownForm(r)
    ensures MapViz.GetState(Some(r)) == Some(CodeOf(r))
    ensures Filters.StateOf(r) == Some(CodeOf(r))
  {
    TownFormMapped(r);
    TownFormFiltered(r);
  }

  /** A comma-free word longer than two characters, with non-space ends, names no state. */
  lemma LongWordRead(s: string)
    requires ',' !in s && |s| > 2 && !IsSpace(s[0]) && !IsSpace(s[|s| - 1])
    ensures Strip(s) == s && Filters.StateOf(s).None?
  {
    StripIdentity(s);
    Filters.DetectStateNoComma(s);
    assert |Upper(s)| > 2;
  }

  lemma AbroadShape(s: string)
    requires s == ABROAD
    ensures ',' !in s && |s| > 2 && !IsSpace(s[0]) && !IsSpace(s[|s| - 1])
  {
  }

  lemma UnknownShape(s: string)
    requires s == UNKNOWN
    ensures ',' !in s && |s| > 2 && !IsSpace(s[0]) && !IsSpace(s[|s| - 1])
  {
  }

  lemma PlaceholdersRead()
    ensures Filters.StateOf(ABROAD).None? && Strip(ABROAD) == ABROAD
    ensures Filters.StateOf(UNKNOWN).None? && Strip(UNKNOWN) == UNKNOWN
  {
    AbroadShape(ABROAD);
    LongWordRead(ABROAD);
    UnknownShape(UNKNOWN);
    LongWordRead(UNKNOWN);
  }

  /**
   * Every standardised location other than 'Abroad' and 'Unknown' yields its
   * code to `get_state` and to `filter_location`; those two yield none.
   */
  lemma StandardizedState(raw: Option<string>)
    ensures var r := Standardize(raw);
      if r == ABROAD || r == UNKNOWN then
        MapViz.GetState(Some(r)).None? && Filters.StateOf(r).None?
      else
        MapViz.GetState(Some(r)) == Some(CodeOf(r)) && Filters.StateOf(r) == Some(CodeOf(r))
  {
    var r := Standardize(raw);
    if r == ABROAD || r == UNKNOWN {
      MapViz.PlaceholdersHaveNoState();
      PlaceholdersRead();
    } else if IsStateCode(r) {
      BareCodeRead(r);
    } else {
      TownFormRead(r);
    }
  }

  /** The "Abroad" preset takes a standardised location exactly when it is 'Abroad'. */
  lemma AbroadPresetOnStandardized(raw: Option<string>)
    ensures Filters.FilterLocation(Filters.Abroad, Some(Standardize(raw))) <==> Standardize(raw) == ABROAD
  {
    StandardizedState(raw);
    PlaceholdersRead();
  }

  /** A missing location, stored as 'Unknown', passes no preset. */
  lemma UnknownPassesNothing(preset: Filters.LocationPreset)
    requires preset != Filters.All
    ensures !Filters.FilterLocation(preset, Some(UNKNOWN))
  {
    PlaceholdersRead();
  }
}
