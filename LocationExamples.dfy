/**
 * Worked examples of `standardize_location`, each proved from the general
 * lemmas of `Locations`: override precedence, the comma stage, the
 * case-sensitive whole-word international stage and the exact state lookup.
 * Each example names its input `s` and fixes it with a `requires`; the facts
 * about the literal that an example needs are stated in small lemmas of their own.
 */
module LocationExamples {
  import opened Wrappers
  import opened Text
  import opened Locations

  // ---------------------------------------------------------------------------
  // Single words
  // ---------------------------------------------------------------------------

  /** A word of letters, digits and underscores. */
  predicate IsWord(s: string) {
    s != [] && forall i :: 0 <= i < |s| ==> IsWordChar(s[i])
  }

  /** A short word with no "lima" in it skips every override. */
  lemma ShortWordNoOverride(s: string)
    requires IsWord(s) && |s| < 9 && !Contains(Lower(s), "lima")
    ensures FirstOverride(Lower(s)).None?
  {
    ShortTextOverride(Lower(s));
  }

  /** A short word that is a key of `US_STATES` comes back as its code. */
  lemma ShortStateWord(s: string, code: string)
    requires IsWord(s) && |s| < 9 && !Contains(Lower(s), "lima")
    requires !IsIntlWord(s) && StateAbbrev(s) == Some(code)
    ensures Standardize(Some(s)) == code
  {
    ShortWordNoOverride(s);
    SingleWord(s);
  }

  /** A short international name, matched with its exact spelling, is "Abroad". */
  lemma ShortIntlWord(s: string)
    requires IsWord(s) && |s| < 9 && !Contains(Lower(s), "lima") && IsIntlWord(s)
    ensures Standardize(Some(s)) == ABROAD
  {
    ShortWordNoOverride(s);
    SingleWord(s);
  }

  /** A short word that is neither international nor a state goes on to the city stage. */
  lemma ShortOtherWord(s: string)
    requires IsWord(s) && |s| < 9 && !Contains(Lower(s), "lima")
    requires !IsIntlWord(s) && StateAbbrev(s).None?
    ensures Standardize(Some(s)) == ResolveCity(s)
  {
    ShortWordNoOverride(s);
    SingleWord(s);
  }

  /** A text whose lower-cased form has no 'l' cannot contain the "lima" override key. */
  lemma NoLima(s: string, lower: string)
    requires Lower(s) == lower && 'l' !in lower
    ensures !Contains(Lower(s), "lima")
  {
    ContainsChar(Lower(s), "lima", 'l');
  }

  /** Short text with no 'N' and no 'l' once lower-cased passes both final literals and is unknown. */
  lemma NoLiteralRest(s: string, lower: string)
    requires Lower(s) == lower && 'l' !in lower && 'N' !in s && s != "Washington" && |s| < 13
    ensures !Contains(Lower(s), "lima") && ResolveRest(s) == UNKNOWN
  {
    NoLima(s, lower);
    ContainsLength(s, "New York City");
    ContainsChar(s, "NYC", 'N');
  }

  lemma TexasFacts(s: string)
    requires s == "Texas"
    ensures IsWord(s) && |s| < 9 && !IsIntlWord(s) && StateAbbrev(s) == Some("TX")
  {
    assert !IsStateCode(s);
  }

  /** "Texas" is a state name: the bare code comes back. */
  lemma Texas(s: string)
    requires s == "Texas"
    ensures Standardize(Some(s)) == "TX"
  {
    TexasFacts(s);
    NoLima(s, "texas");
    ShortStateWord(s, "TX");
  }

  lemma IndianaFacts(s: string)
    requires s == "Indiana"
    ensures IsWord(s) && |s| < 9 && !IsIntlWord(s) && StateAbbrev(s) == Some("IN")
  {
    assert !IsStateCode(s);
  }

  /** "Indiana" does not match the international name "India": it is a state. */
  lemma Indiana(s: string)
    requires s == "Indiana"
    ensures Standardize(Some(s)) == "IN"
  {
    IndianaFacts(s);
    NoLima(s, "indiana");
    ShortStateWord(s, "IN");
  }

  lemma TokyoFacts(s: string)
    requires s == "Tokyo"
    ensures IsWord(s) && |s| < 9 && IsIntlWord(s)
  {
  }

  /** "Tokyo" is an international name. */
  lemma Tokyo(s: string)
    requires s == "Tokyo"
    ensures Standardize(Some(s)) == ABROAD
  {
    TokyoFacts(s);
    NoLima(s, "tokyo");
    ShortIntlWord(s);
  }

  lemma LowerTokyoFacts(s: string)
    requires s == "tokyo"
    ensures IsWord(s) && |s| < 9 && !IsIntlWord(s) && StateAbbrev(s).None? && CityState(s).None?
  {
    assert !IsStateCode(s);
  }

  /** The international stage is case-sensitive: "tokyo" is not "Tokyo", and is unknown. */
  lemma LowerTokyo(s: string)
    requires s == "tokyo"
    ensures Standardize(Some(s)) == UNKNOWN
  {
    LowerTokyoFacts(s);
    NoLiteralRest(s, "tokyo");
    ShortOtherWord(s);
  }

  lemma AbroadFacts(s: string)
    requires s == "Abroad"
    ensures IsWord(s) && |s| < 9 && !IsIntlWord(s) && StateAbbrev(s).None? && CityState(s).None?
  {
    assert !IsStateCode(s);
  }

  /** Standardising "Abroad" once more gives "Unknown": the result is not a fixed point. */
  lemma AbroadAgain(s: string)
    requires s == ABROAD
    ensures Standardize(Some(s)) == UNKNOWN
  {
    AbroadFacts(s);
    NoLiteralRest(s, "abroad");
    ShortOtherWord(s);
  }

  lemma UnknownFacts(s: string)
    requires s == "Unknown"
    ensures IsWord(s) && |s| < 9 && !IsIntlWord(s) && StateAbbrev(s).None? && CityState(s).None?
  {
    assert !IsStateCode(s);
  }

  /** "Unknown" is a fixed point. */
  lemma UnknownAgain(s: string)
    requires s == UNKNOWN
    ensures Standardize(Some(s)) == UNKNOWN
  {
    UnknownFacts(s);
    NoLiteralRest(s, "unknown");
    ShortOtherWord(s);
  }

  lemma NycFacts(s: string)
    requires s == "NYC"
    ensures IsWord(s) && |s| < 9 && !IsIntlWord(s) && StateAbbrev(s).None? && CityState(s).None?
  {
    assert !IsStateCode(s);
  }

  lemma NycRest(s: string)
    requires s == "NYC"
    ensures !Contains(Lower(s), "lima") && ResolveRest(s) == "New York, NY"
  {
    ContainsLength(Lower(s), "lima");
    assert OccursAt(s, "NYC", 0);
  }

  /** "NYC" reaches the New York City literal. */
  lemma Nyc(s: string)
    requires s == "NYC"
    ensures Standardize(Some(s)) == "New York, NY"
  {
    NycFacts(s);
    NycRest(s);
    ShortOtherWord(s);
  }

  // ---------------------------------------------------------------------------
  // Longer texts
  // ---------------------------------------------------------------------------

  lemma WashingtonFacts(s: string)
    requires s == "Washington"
    ensures IsWord(s) && !IsIntlWord(s) && StateAbbrev(s) == Some("WA")
  {
    assert !IsStateCode(s);
  }

  lemma WashingtonLower(s: string)
    requires s == "Washington"
    ensures 'e' !in Lower(s) && 'l' !in Lower(s)
  {
    assert Lower(s) == "washington";
  }

  /**
   * "Washington" is a key of `US_STATES`, so the state stage answers "WA"
   * before the later check for the bare "Washington" is reached.
   */
  lemma Washington(s: string)
    requires s == "Washington"
    ensures Standardize(Some(s)) == "WA"
  {
    WashingtonFacts(s);
    WashingtonLower(s);
    NoOverrideWithout(Lower(s));
    SingleWord(s);
  }

  /** Single-spaced text is matched against the keys as it is. */
  lemma SingleSpacedOverride(s: string, j: nat, v: string)
    requires s != "" && SingleSpaced(s) && j < OVERRIDE_COUNT && FirstOverride(Lower(s)) == Some(j)
    requires OVERRIDE_VALUES[j] == v
    ensures Standardize(Some(s)) == v
  {
    CollapseSingleSpaced(s);
    StandardizeOverride(s, j);
  }

  lemma WhiteHouseValue()
    ensures OVERRIDE_VALUES[1] == "Washington, DC"
  {
  }

  lemma ArlingtonValue()
    ensures OVERRIDE_VALUES[9] == "Arlington, VA"
  {
  }

  lemma WhiteHouseKey()
    ensures Lower(OverrideKey(1)) == "the white house"
  {
  }

  lemma ArlingtonKey()
    ensures Lower(OverrideKey(9)) == "arlington"
  {
  }

  lemma WhiteHouseText(s: string)
    requires s == "the White House"
    ensures s != "" && SingleSpaced(s)
  {
  }

  lemma WhiteHouseLower(s: string)
    requires s == "the White House"
    ensures FirstOverride(Lower(s)) == Some(1)
  {
    assert Lower(s) == "the white house";
    WhiteHouseKeys(Lower(s));
  }

  lemma WhiteHouseKeys(low: string)
    requires low == "the white house"
    ensures FirstOverride(low) == Some(1)
  {
    WhiteHouseNotRoseGarden(low);
    WhiteHouseHasKey(low);
    FirstOverrideIs(low, 1);
  }

  lemma WhiteHouseNotRoseGarden(low: string)
    requires low == "the white house"
    ensures !Contains(low, Lower(OverrideKey(0)))
  {
    assert 'r' !in low;
    KeyAbsent(low, 0, 4);
  }

  lemma WhiteHouseHasKey(low: string)
    requires low == "the white house"
    ensures Contains(low, Lower(OverrideKey(1)))
  {
    WhiteHouseKey();
    assert OccursAt(low, "the white house", 0);
  }

  /** "the White House" is an override. */
  lemma WhiteHouse(s: string)
    requires s == "the White House"
    ensures Standardize(Some(s)) == "Washington, DC"
  {
    WhiteHouseText(s);
    WhiteHouseLower(s);
    WhiteHouseValue();
    SingleSpacedOverride(s, 1, "Washington, DC");
  }

  lemma ArlingtonText(s: string)
    requires s == "Arlington, TX"
    ensures s != "" && SingleSpaced(s)
  {
  }

  lemma ArlingtonLower(s: string)
    requires s == "Arlington, TX"
    ensures FirstOverride(Lower(s)) == Some(9)
  {
    assert Lower(s) == "arlington, tx";
    ArlingtonKeys(Lower(s));
  }

  lemma ArlingtonKeys(low: string)
    requires low == "arlington, tx"
    ensures FirstOverride(low) == Some(9)
  {
    assert 'e' !in low && '-' !in low;
    OnlyLateOverrides(low);
    ArlingtonKey();
    assert OccursAt(low, "arlington", 0);
  }

  /** The "Arlington" override applies before the comma stage could keep "TX". */
  lemma ArlingtonTexas(s: string)
    requires s == "Arlington, TX"
    ensures Standardize(Some(s)) == "Arlington, VA"
  {
    ArlingtonText(s);
    ArlingtonLower(s);
    ArlingtonValue();
    SingleSpacedOverride(s, 9, "Arlington, VA");
  }

  // ---------------------------------------------------------------------------
  // Town forms
  // ---------------------------------------------------------------------------

  /** A town form whose lower-cased text has neither an 'e' nor an 'l' is a fixed point. */
  lemma FixedPointExample(t: string, code: string)
    requires IsStateCode(code) && ',' !in t && SingleSpaced(t)
    requires 'e' !in Lower(t + ", " + code) && 'l' !in Lower(t + ", " + code)
    ensures Standardize(Some(t + ", " + code)) == t + ", " + code
  {
    var low := Lower(t + ", " + code);
    NoOverrideWithout(low);
    forall j | 0 <= j < OVERRIDE_COUNT ensures !Contains(low, Lower(OverrideKey(j))) {
      assert FirstOverrideFrom(low, 0).None?;
    }
    TownFormFixedPoint(t, code);
  }

  lemma IndianaTown(t: string)
    requires t == "Indiana"
    ensures ',' !in t && SingleSpaced(t)
  {
  }

  lemma IndianaPaLower(s: string)
    requires s == "Indiana, PA"
    ensures 'e' !in Lower(s) && 'l' !in Lower(s)
  {
    assert Lower(s) == "indiana, pa";
  }

  /** "Indiana, PA" contains "India", but the comma stage answers first. */
  lemma IndianaPa(s: string)
    requires s == "Indiana, PA"
    ensures Standardize(Some(s)) == "Indiana, PA"
  {
    IndianaTown("Indiana");
    assert s == "Indiana" + ", " + "PA";
    IndianaPaLower(s);
    FixedPointExample("Indiana", "PA");
  }

  lemma ParisTown(t: string)
    requires t == "Paris"
    ensures ',' !in t && SingleSpaced(t)
  {
  }

  lemma ParisTxLower(s: string)
    requires s == "Paris, TX"
    ensures 'e' !in Lower(s) && 'l' !in Lower(s)
  {
    assert Lower(s) == "paris, tx";
  }

  /** "Paris, TX" stays in Texas. */
  lemma ParisTx(s: string)
    requires s == "Paris, TX"
    ensures Standardize(Some(s)) == "Paris, TX"
  {
    ParisTown("Paris");
    assert s == "Paris" + ", " + "TX";
    ParisTxLower(s);
    FixedPointExample("Paris", "TX");
  }

  // ---------------------------------------------------------------------------
  // The comma stage on its own
  // ---------------------------------------------------------------------------

  /** A comma-free text that starts and ends with a non-space. */
  predicate Segment(t: string) {
    ',' !in t && Strip(t) == t
  }

  lemma Stripped(t: string)
    requires ',' !in t && t != [] && !IsSpace(t[0]) && !IsSpace(t[|t| - 1])
    ensures Segment(t)
  {
    StripIdentity(t);
  }

  /** The comma stage on "<t>, <p>" for segments `t` and `p`, with the code the lookups find. */
  lemma CommaHit(s: string, t: string, p: string, c: string)
    requires s == t + ", " + p && Segment(t) && Segment(p)
    requires StateAbbrev(p) == Some(c) || (StateAbbrev(p).None? && StateAbbrev(RemoveChar(p, '.')) == Some(c))
    ensures CommaState(s) == Some(t + ", " + c)
  {
    CommaStateOneTown(t, p);
  }

  lemma TwoTownHit(s: string, t1: string, t2: string, p: string, c: string)
    requires s == t1 + ", " + t2 + ", " + p && Segment(t1) && Segment(t2) && t2 != [] && Segment(p)
    requires StateAbbrev(p) == Some(c)
    ensures CommaState(s) == Some(t1 + ",  " + t2 + ", " + c)
  {
    CommaStateTwoTowns(t1, t2, p);
  }

  lemma AustinTexasFacts(t: string, p: string)
    requires t == "Austin" && p == "Texas"
    ensures Segment(t) && Segment(p) && StateAbbrev(p) == Some("TX")
  {
    Stripped(t);
    Stripped(p);
    assert !IsStateCode(p);
  }

  /** A state name after the comma is looked up in the state table. */
  lemma AustinTexas(t: string, p: string)
    requires t == "Austin" && p == "Texas"
    ensures CommaState(t + ", " + p) == Some(t + ", " + "TX")
  {
    AustinTexasFacts(t, p);
    CommaHit(t + ", " + p, t, p, "TX");
  }

  lemma DottedNoState(p: string)
    requires p == "D.C."
    ensures StateAbbrev(p).None?
  {
    assert !IsStateCode(p);
  }

  lemma DotsRemoved(p: string)
    requires p == "D.C."
    ensures RemoveChar(p, '.') == "DC"
  {
    assert p == "D" + "." + "C" + ".";
    assert RemoveChar(p, '.') == ['D'] + RemoveChar(".C.", '.');
    assert RemoveChar(".C.", '.') == RemoveChar("C.", '.');
    assert RemoveChar("C.", '.') == ['C'] + RemoveChar(".", '.');
  }

  lemma WashingtonDottedFacts(t: string, p: string)
    requires t == "Washington" && p == "D.C."
    ensures Segment(t) && Segment(p) && StateAbbrev(p).None? && StateAbbrev(RemoveChar(p, '.')) == Some("DC")
  {
    Stripped(t);
    Stripped(p);
    DottedNoState(p);
    DotsRemoved(p);
    assert IsStateCode("DC");
  }

  /** "D.C." misses the table, and the retry without periods finds "DC". */
  lemma WashingtonDotted(t: string, p: string)
    requires t == "Washington" && p == "D.C."
    ensures CommaState(t + ", " + p) == Some(t + ", " + "DC")
  {
    WashingtonDottedFacts(t, p);
    CommaHit(t + ", " + p, t, p, "DC");
  }

  lemma TwoSegmentsFacts(t1: string, t2: string, p: string)
    requires t1 == "Fort Myers" && t2 == "Lee County" && p == "FL"
    ensures Segment(t1) && Segment(t2) && t2 != [] && Segment(p) && StateAbbrev(p) == Some("FL")
  {
    Stripped(t1);
    Stripped(t2);
    Stripped(p);
  }

  /** Two town segments come back with two spaces after their comma. */
  lemma TwoSegments(t1: string, t2: string, p: string)
    requires t1 == "Fort Myers" && t2 == "Lee County" && p == "FL"
    ensures CommaState(t1 + ", " + t2 + ", " + p) == Some(t1 + ",  " + t2 + ", " + "FL")
  {
    TwoSegmentsFacts(t1, t2, p);
    TwoTownHit(t1 + ", " + t2 + ", " + p, t1, t2, p, "FL");
  }

  lemma FranceNoState(p: string)
    requires p == "France"
    ensures StateAbbrev(p).None?
  {
    assert !IsStateCode(p);
  }

  lemma NoStateFacts(t: string, p: string)
    requires t == "Paris" && p == "France"
    ensures Segment(t) && Segment(p) && StateAbbrev(p).None? && StateAbbrev(RemoveChar(p, '.')).None?
  {
    Stripped(t);
    Stripped(p);
    FranceNoState(p);
    assert '.' !in p;
  }

  /** A last segment that is no state, with or without periods, fails the comma stage. */
  lemma NoStateAfterComma(t: string, p: string)
    requires t == "Paris" && p == "France"
    ensures CommaState(t + ", " + p) == None
  {
    NoStateFacts(t, p);
    CommaStateOneTown(t, p);
  }
}
