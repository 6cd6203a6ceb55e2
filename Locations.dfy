/**
 * Location resolution for speech titles: `extract_raw_location` takes the text
 * after the last " in " of a title and cuts off a " - Month D, YYYY" date, and
 * `standardize_location` maps that text to "Unknown", "Abroad", a bare state
 * code or "<town>, <code>" through a fixed, ordered chain of checks.
 */
module Locations {
  import opened Wrappers
  import opened Text

  const UNKNOWN := "Unknown"
  const ABROAD := "Abroad"

  /**
   * `US_STATES`: each of the 51 codes maps to itself, and each state name and
   * "District of Columbia" maps to its code.
   */
  function StateAbbrev(k: string): (r: Option<string>)
    ensures r.Some? ==> IsStateCode(r.value)
  {
    if IsStateCode(k) then Some(k) else StateName(k)
  }

  // The tables below are grouped by first letter; each group lists its entries in source order.

  /** The name entries of `US_STATES`. */
  function StateName(k: string): (r: Option<string>)
    ensures r.Some? ==> IsStateCode(r.value)
  {
    if k == [] then None
    else match k[0]
    case 'A' => (match k case "Alabama" => Some("AL") case "Alaska" => Some("AK") case "Arizona" => Some("AZ") case "Arkansas" => Some("AR") case _ => None)
    case 'C' => (match k case "California" => Some("CA") case "Colorado" => Some("CO") case "Connecticut" => Some("CT") case _ => None)
    case 'D' => (match k case "Delaware" => Some("DE") case "District of Columbia" => Some("DC") case _ => None)
    case 'F' => (match k case "Florida" => Some("FL") case _ => None)
    case 'G' => (match k case "Georgia" => Some("GA") case _ => None)
    case 'H' => (match k case "Hawaii" => Some("HI") case _ => None)
    case 'I' => (match k case "Idaho" => Some("ID") case "Illinois" => Some("IL") case "Indiana" => Some("IN") case "Iowa" => Some("IA") case _ => None)
    case 'K' => (match k case "Kansas" => Some("KS") case "Kentucky" => Some("KY") case _ => None)
    case 'L' => (match k case "Louisiana" => Some("LA") case _ => None)
    case 'M' => (match k case "Maine" => Some("ME") case "Maryland" => Some("MD") case "Massachusetts" => Some("MA") case "Michigan" => Some("MI") case "Minnesota" => Some("MN") case "Mississippi" => Some("MS") case "Missouri" => Some("MO") case "Montana" => Some("MT") case _ => None)
    case 'N' => (match k case "Nebraska" => Some("NE") case "Nevada" => Some("NV") case "New Hampshire" => Some("NH") case "New Jersey" => Some("NJ") case "New Mexico" => Some("NM") case "New York" => Some("NY") case "North Carolina" => Some("NC") case "North Dakota" => Some("ND") case _ => None)
    case 'O' => (match k case "Ohio" => Some("OH") case "Oklahoma" => Some("OK") case "Oregon" => Some("OR") case _ => None)
    case 'P' => (match k case "Pennsylvania" => Some("PA") case _ => None)
    case 'R' => (match k case "Rhode Island" => Some("RI") case _ => None)
    case 'S' => (match k case "South Carolina" => Some("SC") case "South Dakota" => Some("SD") case _ => None)
    case 'T' => (match k case "Tennessee" => Some("TN") case "Texas" => Some("TX") case _ => None)
    case 'U' => (match k case "Utah" => Some("UT") case _ => None)
    case 'V' => (match k case "Vermont" => Some("VT") case "Virginia" => Some("VA") case _ => None)
    case 'W' => (match k case "Washington" => Some("WA") case "West Virginia" => Some("WV") case "Wisconsin" => Some("WI") case "Wyoming" => Some("WY") case _ => None)
    case _ => None
  }

  /** The 51 codes that are values of `US_STATES` (the 50 states and DC). */
  predicate IsStateCode(k: string)
    ensures IsStateCode(k) ==> |k| == 2 && IsAsciiUpper(k[0]) && IsAsciiUpper(k[1])
  {
    if k == [] then false
    else match k[0]
    case 'A' => (match k case "AL" => true case "AK" => true case "AZ" => true case "AR" => true case _ => false)
    case 'C' => (match k case "CA" => true case "CO" => true case "CT" => true case _ => false)
    case 'D' => (match k case "DE" => true case "DC" => true case _ => false)
    case 'F' => (match k case "FL" => true case _ => false)
    case 'G' => (match k case "GA" => true case _ => false)
    case 'H' => (match k case "HI" => true case _ => false)
    case 'I' => (match k case "ID" => true case "IL" => true case "IN" => true case "IA" => true case _ => false)
    case 'K' => (match k case "KS" => true case "KY" => true case _ => false)
    case 'L' => (match k case "LA" => true case _ => false)
    case 'M' => (match k case "ME" => true case "MD" => true case "MA" => true case "MI" => true case "MN" => true case "MS" => true case "MO" => true case "MT" => true case _ => false)
    case 'N' => (match k case "NE" => true case "NV" => true case "NH" => true case "NJ" => true case "NM" => true case "NY" => true case "NC" => true case "ND" => true case _ => false)
    case 'O' => (match k case "OH" => true case "OK" => true case "OR" => true case _ => false)
    case 'P' => (match k case "PA" => true case _ => false)
    case 'R' => (match k case "RI" => true case _ => false)
    case 'S' => (match k case "SC" => true case "SD" => true case _ => false)
    case 'T' => (match k case "TN" => true case "TX" => true case _ => false)
    case 'U' => (match k case "UT" => true case _ => false)
    case 'V' => (match k case "VT" => true case "VA" => true case _ => false)
    case 'W' => (match k case "WA" => true case "WV" => true case "WI" => true case "WY" => true case _ => false)
    case _ => false
  }

  /** Membership in `INTERNATIONAL_LOCATIONS`. */
  predicate IsIntlWord(k: string)
    ensures IsIntlWord(k) ==> |k| >= 4
  {
    if k == [] then false
    else match k[0]
    case 'D' => (match k case "Davos" => true case "Doocastle" => true case "Da Nang" => true case _ => false)
    case 'J' => (match k case "Jerusalem" => true case "Japan" => true case _ => false)
    case 'R' => (match k case "Riyadh" => true case _ => false)
    case 'V' => (match k case "Vietnam" => true case _ => false)
    case 'O' => (match k case "Ossie" => true case "Osaka" => true case _ => false)
    case 'H' => (match k case "Hanoi" => true case "Hamburg" => true case _ => false)
    case 'B' => (match k case "Biarritz" => true case "Brussels" => true case "Bethlehem" => true case "Beijing" => true case _ => false)
    case 'L' => (match k case "London" => true case _ => false)
    case 'N' => (match k case "Normandy" => true case _ => false)
    case 'S' => (match k case "Shannon" => true case "Singapore" => true case "Sicily" => true case "Seoul" => true case "Switzerland" => true case "South Korea" => true case "Saudi Arabia" => true case _ => false)
    case 'T' => (match k case "Tokyo" => true case "The Vatican" => true case _ => false)
    case 'P' => (match k case "Panmunjom" => true case "Poland" => true case "Philippines" => true case _ => false)
    case 'Q' => (match k case "Quebec" => true case "Qatar" => true case _ => false)
    case 'W' => (match k case "Warsaw" => true case _ => false)
    case 'M' => (match k case "Manila" => true case _ => false)
    case 'F' => (match k case "France" => true case _ => false)
    case 'G' => (match k case "Germany" => true case _ => false)
    case 'U' => (match k case "United Kingdom" => true case _ => false)
    case 'I' => (match k case "Italy" => true case "Ireland" => true case "Israel" => true case "India" => true case _ => false)
    case 'C' => (match k case "China" => true case "Canada" => true case _ => false)
    case 'A' => (match k case "Argentina" => true case _ => false)
    case _ => false
  }

  /** `common_cities`: the known city names, each mapped to its state code. */
  function CityState(k: string): (r: Option<string>)
    ensures r.Some? ==> IsStateCode(r.value)
  {
    if k == [] then None
    else match k[0]
    case 'A' => (match k case "Austin" => Some("TX") case "Atlanta" => Some("GA") case _ => None)
    case 'C' => (match k case "Chicago" => Some("IL") case "Cleveland" => Some("OH") case "Cincinnati" => Some("OH") case "Columbus" => Some("OH") case "Charlotte" => Some("NC") case _ => None)
    case 'D' => (match k case "Detroit" => Some("MI") case "Doral" => Some("FL") case "Dallas" => Some("TX") case "Denver" => Some("CO") case _ => None)
    case 'M' => (match k case "Milwaukee" => Some("WI") case "Minneapolis" => Some("MN") case "Miami" => Some("FL") case "Memphis" => Some("TN") case _ => None)
    case 'L' => (match k case "Las Vegas" => Some("NV") case "Los Angeles" => Some("CA") case "Louisville" => Some("KY") case _ => None)
    case 'P' => (match k case "Phoenix" => Some("AZ") case "Pittsburgh" => Some("PA") case "Philadelphia" => Some("PA") case "Portland" => Some("OR") case _ => None)
    case 'T' => (match k case "Tampa" => Some("FL") case "Tulsa" => Some("OK") case _ => None)
    case 'O' => (match k case "Orlando" => Some("FL") case "Oklahoma City" => Some("OK") case _ => None)
    case 'J' => (match k case "Jacksonville" => Some("FL") case _ => None)
    case 'W' => (match k case "West Palm Beach" => Some("FL") case _ => None)
    case 'N' => (match k case "Nashville" => Some("TN") case "New Orleans" => Some("LA") case _ => None)
    case 'R' => (match k case "Raleigh" => Some("NC") case "Richmond" => Some("VA") case _ => None)
    case 'G' => (match k case "Greensboro" => Some("NC") case _ => None)
    case 'H' => (match k case "Houston" => Some("TX") case _ => None)
    case 'S' => (match k case "San Antonio" => Some("TX") case "San Francisco" => Some("CA") case "San Diego" => Some("CA") case "Seattle" => Some("WA") case "St. Louis" => Some("MO") case "Salt Lake City" => Some("UT") case _ => None)
    case 'B' => (match k case "Boston" => Some("MA") case "Baltimore" => Some("MD") case _ => None)
    case 'K' => (match k case "Kansas City" => Some("MO") case _ => None)
    case 'I' => (match k case "Indianapolis" => Some("IN") case _ => None)
    case 'E' => (match k case "El Paso" => Some("TX") case _ => None)
    case _ => None
  }

  /** The number of entries of `OVERRIDES`. */
  const OVERRIDE_COUNT: nat := 11

  /**
   * The key of entry `i` of `OVERRIDES`, in declaration order: a key found
   * anywhere in the text, ignoring case, decides the result.
   */
  function OverrideKey(i: nat): (k: string)
    requires i < OVERRIDE_COUNT
    ensures |k| >= 4
  {
    match i
    case 0 => "the Rose Garden"
    case 1 => "the White House"
    case 2 => "The White House"
    case 3 => "Bedminster"
    case 4 => "Mar-a-Lago"
    case 5 => "Trump Tower"
    case 6 => "Andrews Air Force Base"
    case 7 => "Joint Base Andrews"
    case 8 => "Walter Reed"
    case 9 => "Arlington"
    case _ => "Lima"
  }

  /** The values of `OVERRIDES`, index by index with the keys. */
  const OVERRIDE_VALUES: seq<string> := [
    "Washington, DC", "Washington, DC", "Washington, DC", "Bedminster, NJ",
    "Palm Beach, FL", "New York, NY", "Camp Springs, MD", "Camp Springs, MD",
    "Bethesda, MD", "Arlington, VA", "Lima, OH"
  ]

  // ---------------------------------------------------------------------------
  // Extraction
  // ---------------------------------------------------------------------------

  /** Length of the run of `\w` characters at the start of `s`. */
  function WordRun(s: string): (n: nat)
    ensures n <= |s| && forall i :: 0 <= i < n ==> IsWordChar(s[i])
    ensures n < |s| ==> !IsWordChar(s[n])
  {
    if s != [] && IsWordChar(s[0]) then 1 + WordRun(s[1..]) else 0
  }

  /** Length of the run of `\d` characters at the start of `s`. */
  function DigitRun(s: string): (n: nat)
    ensures n <= |s| && forall i :: 0 <= i < n ==> IsDigit(s[i])
    ensures n < |s| ==> !IsDigit(s[n])
  {
    if s != [] && IsDigit(s[0]) then 1 + DigitRun(s[1..]) else 0
  }

  /**
   * The date suffix ` - \w+ \d+, \d{4}` matches at index `k` of `c`. Neither `\w+`
   * nor `\d+` can give back characters, since the character after each must be
   * a space or a comma, so both take their maximal run.
   */
  predicate DateSuffixAt(c: string, k: nat) {
    && OccursAt(c, " - ", k)
    && var w := WordRun(c[k + 3..]);
    && w > 0 && OccursAt(c, " ", k + 3 + w)
    && var d := DigitRun(c[k + 4 + w..]);
    && d > 0 && OccursAt(c, ", ", k + 4 + w + d)
    && var y := k + 6 + w + d;
    && y + 4 <= |c| && IsDigit(c[y]) && IsDigit(c[y + 1]) && IsDigit(c[y + 2]) && IsDigit(c[y + 3])
  }

  /** Python's `$` without MULTILINE: the end of the text, or just before a final line break. */
  predicate EndAt(c: string, k: nat) {
    k == |c| || (k == |c| - 1 && c[k] == '\n')
  }

  /** The alternative after the lazy group: the date suffix (first regex) or " -" (fallback regex). */
  predicate StopAt(c: string, k: nat, dated: bool) {
    (if dated then DateSuffixAt(c, k) else OccursAt(c, " -", k)) || EndAt(c, k)
  }

  /**
   * The lazy `^(.*?)` followed by the stop alternative: the least end position
   * at or after `k` where the alternative matches, where `.` never crosses a
   * line break. `None` when the regex does not match.
   */
  function LazyEnd(c: string, k: nat, dated: bool): (r: Option<nat>)
    requires k <= |c|
    ensures r.Some? ==> k <= r.value <= |c| && StopAt(c, r.value, dated)
    ensures r.Some? ==> forall j :: k <= j < r.value ==> c[j] != '\n' && !StopAt(c, j, dated)
    ensures r.None? ==> exists n :: k <= n < |c| && c[n] == '\n' && forall j :: k <= j <= n ==> !StopAt(c, j, dated)
    decreases |c| - k
  {
    if StopAt(c, k, dated) then Some(k)
    else if k == |c| then None
    else if c[k] == '\n' then
      assert forall j :: k <= j <= k ==> !StopAt(c, j, dated);
      None
    else
      var r := LazyEnd(c, k + 1, dated);
      assert r.Some? ==> forall j :: k <= j < r.value ==> c[j] != '\n' && !StopAt(c, j, dated);
      r
  }

  /** `.strip().rstrip('.')` */
  function Clean(s: string): (r: string)
    ensures r == [] || r[|r| - 1] != '.'
  {
    RStripChar(Strip(s), '.')
  }

  /** The two regex attempts on the text after the last " in ". */
  function ExtractCandidate(c: string): (r: Option<string>)
    ensures r.Some? ==> r.value == [] || r.value[|r.value| - 1] != '.'
  {
    match LazyEnd(c, 0, true)
    case Some(k) => Some(Clean(c[..k]))
    case None =>
      match LazyEnd(c, 0, false)
      case Some(k) => Some(Clean(c[..k]))
      case None => None
  }

  /** `extract_raw_location`; `None` stands for a non-string title. */
  function ExtractRawLocation(title: Option<string>): (r: Option<string>)
    ensures title.None? ==> r.None?
    ensures title.Some? && !Contains(title.value, " in ") ==> r.None?
    ensures r.Some? ==> r.value == [] || r.value[|r.value| - 1] != '.'
  {
    ContainsLastIndexOf(if title.Some? then title.value else "", " in ");
    match title
    case None => None
    case Some(t) =>
      match LastIndexOf(t, " in ")
      case None => None
      case Some(k) => ExtractCandidate(t[k + 4..])
  }

  /** Only the text after the last " in " matters: `a` may contain " in " itself. */
  lemma ExtractAfterLastIn(a: string, b: string)
    requires !Contains("in " + b, " in ")
    ensures ExtractRawLocation(Some(a + " in " + b)) == ExtractCandidate(b)
  {
    var u := "in " + b;
    var t := a + " " + u;
    assert t == a + " in " + b;
    assert OccursAt(t, " in ", |a|);
    ContainsIff(u, " in ");
    forall j | |a| < j ensures !OccursAt(t, " in ", j) {
      if 0 <= j && j + 4 <= |t| {
        assert t[j..j + 4] == u[j - |a| - 1..j - |a| + 3];
        assert !OccursAt(u, " in ", j - |a| - 1);
      }
    }
    assert t[|a| + 4..] == b;
  }

  /** Without a line break after `k`, the lazy search always stops, at the end anchor at the latest. */
  lemma {:induction false} LazyEndWithoutNewline(c: string, k: nat, dated: bool)
    requires k <= |c| && forall j :: k <= j < |c| ==> c[j] != '\n'
    ensures LazyEnd(c, k, dated).Some?
    decreases |c| - k
  {
    if !StopAt(c, k, dated) && k < |c| {
      LazyEndWithoutNewline(c, k + 1, dated);
    }
  }

  /**
   * Without a line break the first regex always matches: the result is the text
   * before the first date suffix, or the whole text when there is none.
   */
  lemma ExtractWithoutNewline(c: string)
    requires '\n' !in c
    ensures exists k :: (0 <= k <= |c| && ExtractCandidate(c) == Some(Clean(c[..k]))
      && (k == |c| || DateSuffixAt(c, k)) && forall j :: 0 <= j < k ==> !DateSuffixAt(c, j))
  {
    LazyEndWithoutNewline(c, 0, true);
    var k := LazyEnd(c, 0, true).value;
    assert ExtractCandidate(c) == Some(Clean(c[..k]));
    forall j | 0 <= j < k ensures !DateSuffixAt(c, j) {
      assert !StopAt(c, j, true);
    }
    assert k < |c| ==> c[k] != '\n';
  }

  /**
   * The fallback regex is reachable: a line break right after " -" stops the
   * first regex (`.` does not cross it and `$` does not match before it), and
   * the fallback then stops at " -".
   */
  lemma ExtractFallbackExample(c: string)
    requires c == "X -\nY"
    ensures LazyEnd(c, 0, true).None?
    ensures ExtractCandidate(c) == Some("X")
  {
    FallbackChars(c);
    FallbackFirstFails(c);
    FallbackSecondStops(c);
    FallbackPrefix(c);
  }

  lemma FallbackChars(c: string)
    requires c == "X -\nY"
    ensures |c| == 5 && c[0] == 'X' && c[1] == ' ' && c[2] == '-' && c[3] == '\n' && c[4] == 'Y'
  {
  }

  lemma FallbackFirstFails(c: string)
    requires |c| == 5 && c[0] == 'X' && c[1] == ' ' && c[2] == '-' && c[3] == '\n' && c[4] == 'Y'
    ensures LazyEnd(c, 0, true).None?
  {
    assert !StopAt(c, 0, true) by { assert c[0..3][0] == c[0]; }
    assert !StopAt(c, 1, true) by { assert c[1..4][2] == c[3]; }
    assert !StopAt(c, 2, true) by { assert c[2..5][0] == c[2]; }
    assert !StopAt(c, 3, true);
    assert LazyEnd(c, 3, true) == None;
    assert LazyEnd(c, 2, true) == None;
    assert LazyEnd(c, 1, true) == None;
  }

  lemma FallbackSecondStops(c: string)
    requires |c| == 5 && c[0] == 'X' && c[1] == ' ' && c[2] == '-' && c[3] == '\n' && c[4] == 'Y'
    ensures LazyEnd(c, 0, false) == Some(1)
  {
    assert !StopAt(c, 0, false) by { assert c[0..2][0] == c[0]; }
    assert OccursAt(c, " -", 1);
  }

  lemma FallbackPrefix(c: string)
    requires c == "X -\nY"
    ensures Clean(c[..1]) == "X"
  {
    assert c[..1] == "X";
    assert Strip("X") == "X";
  }

  // ---------------------------------------------------------------------------
  // Standardisation
  // ---------------------------------------------------------------------------

  /** The first override at or after `i` whose lower-cased key occurs in `low`. */
  function FirstOverrideFrom(low: string, i: nat): (r: Option<nat>)
    requires i <= OVERRIDE_COUNT
    ensures r.Some? ==> i <= r.value < OVERRIDE_COUNT && Contains(low, Lower(OverrideKey(r.value)))
    ensures r.Some? ==> forall j :: i <= j < r.value ==> !Contains(low, Lower(OverrideKey(j)))
    ensures r.None? ==> forall j :: i <= j < OVERRIDE_COUNT ==> !Contains(low, Lower(OverrideKey(j)))
    decreases OVERRIDE_COUNT - i
  {
    if i == OVERRIDE_COUNT then None
    else if Contains(low, Lower(OverrideKey(i))) then Some(i)
    else FirstOverrideFrom(low, i + 1)
  }

  /** The first override whose key occurs in `low`. */
  function FirstOverride(low: string): Option<nat> {
    FirstOverrideFrom(low, 0)
  }

  /** The regex `\b` at position `p`: a word character on exactly one side. */
  predicate Boundary(s: string, p: int) {
    0 <= p <= |s| && ((p > 0 && IsWordChar(s[p - 1])) != (p < |s| && IsWordChar(s[p])))
  }

  /**
   * Some international name occurs in `loc` as a whole word, case-sensitively.
   * Stated as an existential, so the answer does not depend on the order in
   * which the set is iterated.
   */
  predicate IsInternational(loc: string) {
    exists i, j :: 0 <= i <= j <= |loc| && Boundary(loc, i) && Boundary(loc, j) && IsIntlWord(loc[i..j])
  }

  /** The "<town>, <state>" path: the last comma segment names a state, with or without periods. */
  function CommaState(loc: string): (r: Option<string>)
    requires ',' in loc
    ensures r.Some? ==> IsTownForm(r.value)
  {
    var parts := Split(loc, ',');
    var statePart := Strip(parts[|parts| - 1]);
    var town := Strip(Join(", ", parts[..|parts| - 1]));
    var code := if StateAbbrev(statePart).Some? then StateAbbrev(statePart) else StateAbbrev(RemoveChar(statePart, '.'));
    if code.Some? then TownForm(town, code.value); Some(town + ", " + code.value) else None
  }

  /** A result of the shape "<town>, <code>" (the town may be empty). */
  predicate IsTownForm(r: string) {
    |r| >= 4 && r[|r| - 4..|r| - 2] == ", " && IsStateCode(r[|r| - 2..])
  }

  /** The four forms a standardised location can take. */
  predicate IsCanonical(r: string) {
    r == UNKNOWN || r == ABROAD || IsStateCode(r) || IsTownForm(r)
  }

  lemma OverrideValuesTownForm(j: nat)
    requires j < |OVERRIDE_VALUES|
    ensures IsTownForm(OVERRIDE_VALUES[j])
  {
  }

  lemma TownForm(town: string, code: string)
    requires IsStateCode(code)
    ensures IsTownForm(town + ", " + code)
  {
    var r := town + ", " + code;
    assert r[|r| - 4..|r| - 2] == ", " && r[|r| - 2..] == code;
  }

  /**
   * The ordered checks of `standardize_location`, on whitespace-normalised
   * text; each stage runs only when the previous ones did not decide.
   */
  function Resolve(loc: string): (r: string)
    ensures IsCanonical(r)
  {
    match FirstOverride(Lower(loc))
    case Some(j) => OverrideValuesTownForm(j); OVERRIDE_VALUES[j]
    case None => ResolveComma(loc)
  }

  /** The comma path: tried only when the text has a comma. */
  function CommaPath(loc: string): (r: Option<string>)
    ensures r.Some? ==> ',' in loc && IsTownForm(r.value)
  {
    if ',' in loc then CommaState(loc) else None
  }

  /** Stage 2: "<town>, <state>". */
  function ResolveComma(loc: string): (r: string)
    ensures IsCanonical(r)
  {
    if CommaPath(loc).Some? then CommaPath(loc).value else ResolveAbroad(loc)
  }

  /** Stage 3: a whole-word international name. */
  function ResolveAbroad(loc: string): (r: string)
    ensures IsCanonical(r)
  {
    if IsInternational(loc) then ABROAD else ResolveState(loc)
  }

  /** Stage 4: the text is exactly a key of `US_STATES`. */
  function ResolveState(loc: string): (r: string)
    ensures IsCanonical(r) && r != ABROAD
  {
    if StateAbbrev(loc).Some? then StateAbbrev(loc).value else ResolveCity(loc)
  }

  /** Stage 5: a known city. */
  function ResolveCity(loc: string): (r: string)
    ensures IsCanonical(r) && r != ABROAD
  {
    if CityState(loc).Some? then TownForm(loc, CityState(loc).value); loc + ", " + CityState(loc).value
    else ResolveRest(loc)
  }

  /** Stages 6 and 7: the bare "Washington" and the New York City literals, else unknown. */
  function ResolveRest(loc: string): (r: string)
    ensures IsCanonical(r) && r != ABROAD
  {
    if loc == "Washington" then TownForm("Washington", "DC"); "Washington, DC"
    else if Contains(loc, "New York City") || Contains(loc, "NYC") then TownForm("New York", "NY"); "New York, NY"
    else UNKNOWN
  }

  /** `standardize_location`; `None` stands for a missing raw location. */
  function Standardize(raw: Option<string>): (r: string)
    ensures IsCanonical(r)
    ensures raw.None? || raw == Some("") ==> r == UNKNOWN
  {
    if raw.None? || raw.value == "" then UNKNOWN
    else Resolve(Collapse(raw.value))
  }

  // ---------------------------------------------------------------------------
  // Properties of the standardisation
  // ---------------------------------------------------------------------------

  /** Whitespace is normalised before any matching: only the collapsed text matters. */
  lemma StandardizeWhitespace(s: string)
    ensures Standardize(Some(s)) == Standardize(Some(Collapse(s)))
  {
    CollapseIdempotent(s);
    if s != "" && Collapse(s) == "" {
      ResolveEmpty();
    }
  }

  lemma NoOverrideInEmpty()
    ensures FirstOverride(Lower("")).None?
  {
    forall j | 0 <= j < OVERRIDE_COUNT ensures !Contains(Lower(""), Lower(OverrideKey(j))) {
      ContainsLength(Lower(""), Lower(OverrideKey(j)));
    }
  }

  lemma ResolveRestEmpty()
    ensures ResolveCity("") == UNKNOWN
  {
    ContainsLength("", "New York City");
    ContainsLength("", "NYC");
    assert ResolveRest("") == UNKNOWN;
  }

  lemma EmptyNotInternational()
    ensures !IsInternational("")
  {
    forall i, j | 0 <= i <= j <= 0 ensures !IsIntlWord(""[i..j]) {
      assert ""[i..j] == "";
    }
  }

  lemma ResolveAbroadEmpty()
    ensures ResolveAbroad("") == UNKNOWN
  {
    ResolveRestEmpty();
    EmptyNotInternational();
  }

  /** Text that is all whitespace resolves to "Unknown". */
  lemma ResolveEmpty()
    ensures Resolve("") == UNKNOWN
  {
    NoOverrideInEmpty();
    ResolveAbroadEmpty();
    assert ResolveComma("") == ResolveAbroad("");
  }

  /** The first matching key is the one before which no key matches. */
  lemma FirstOverrideIs(low: string, j: nat)
    requires j < OVERRIDE_COUNT && Contains(low, Lower(OverrideKey(j)))
    requires forall i :: 0 <= i < j ==> !Contains(low, Lower(OverrideKey(i)))
    ensures FirstOverride(low) == Some(j)
  {
  }

  lemma ResolveOverride(loc: string, j: nat)
    requires j < OVERRIDE_COUNT && FirstOverride(Lower(loc)) == Some(j)
    ensures Resolve(loc) == OVERRIDE_VALUES[j]
  {
  }

  lemma NonEmptyWhenContains(s: string, j: nat)
    requires j < OVERRIDE_COUNT
    requires Contains(Lower(Collapse(s)), Lower(OverrideKey(j)))
    ensures s != ""
  {
    assert Collapse("") == "";
    if |Collapse(s)| < 4 {
      ContainsLength(Lower(Collapse(s)), Lower(OverrideKey(j)));
    }
  }

  /**
   * Overrides come first: when the key of override `j` occurs in the collapsed
   * text, ignoring case, and no earlier key does, the result is the value of
   * override `j`, whatever else the text holds.
   */
  lemma OverridePrecedence(s: string, j: nat)
    requires j < OVERRIDE_COUNT
    requires Contains(Lower(Collapse(s)), Lower(OverrideKey(j)))
    requires forall i :: 0 <= i < j ==> !Contains(Lower(Collapse(s)), Lower(OverrideKey(i)))
    ensures Standardize(Some(s)) == OVERRIDE_VALUES[j]
  {
    NonEmptyWhenContains(s, j);
    FirstOverrideIs(Lower(Collapse(s)), j);
    ResolveOverride(Collapse(s), j);
  }

  /** No override key occurs from index `i` on, so no override applies from there. */
  lemma {:induction false} NoOverrideFrom(low: string, i: nat)
    requires i <= OVERRIDE_COUNT
    requires forall j :: i <= j < OVERRIDE_COUNT ==> !Contains(low, Lower(OverrideKey(j)))
    ensures FirstOverrideFrom(low, i).None?
    decreases OVERRIDE_COUNT - i
  {
    if i < OVERRIDE_COUNT {
      NoOverrideFrom(low, i + 1);
    }
  }

  lemma StandardizeOverride(s: string, j: nat)
    requires s != "" && j < OVERRIDE_COUNT && FirstOverride(Lower(Collapse(s))) == Some(j)
    ensures Standardize(Some(s)) == OVERRIDE_VALUES[j]
  {
    ResolveOverride(Collapse(s), j);
  }

  /** Without an override, single-spaced text goes straight to the comma stage. */
  lemma StandardizeNoOverride(s: string)
    requires s != "" && SingleSpaced(s) && FirstOverride(Lower(s)).None?
    ensures Standardize(Some(s)) == ResolveComma(s)
  {
    CollapseSingleSpaced(s);
  }

  /** `" XY".strip()` is `"XY"` for two non-space characters. */
  lemma StripSpacedCode(code: string)
    requires |code| == 2 && !IsSpace(code[0]) && !IsSpace(code[1])
    ensures Strip(" " + code) == code
  {
    var s := " " + code;
    assert LeadingSpaces(s) == 1 by {
      assert s[1..] == code;
      assert LeadingSpaces(code) == 0;
    }
    assert s[1..] == code;
    assert TrailingSpaces(code) == 0;
  }

  /** The comma stage accepts "<town>, <code>" for a comma-free, stripped town. */
  lemma CommaStateTownForm(t: string, code: string)
    requires IsStateCode(code) && ',' !in t && Strip(t) == t
    ensures ResolveComma(t + ", " + code) == t + ", " + code
  {
    assert (t + ", " + code)[|t|] == ',';
    CommaStateSplit(t, code);
  }

  lemma CommaStateSplit(t: string, code: string)
    requires IsStateCode(code) && ',' !in t && Strip(t) == t
    ensures CommaState(t + ", " + code) == Some(t + ", " + code)
  {
    var parts := Split(t + ", " + code, ',');
    SplitTownForm(t, code);
    StateCodePiece(code);
    assert Strip(parts[|parts| - 1]) == code;
    assert StateAbbrev(code) == Some(code);
    assert parts[..|parts| - 1] == [t];
    assert Strip(Join(", ", [t])) == t;
  }

  /** A space before a text does not change its strip. */
  lemma StripAfterSpace(x: string)
    ensures Strip(" " + x) == Strip(x)
  {
    var s := " " + x;
    assert s[1..] == x;
    assert LeadingSpaces(s) == 1 + LeadingSpaces(x);
    assert s[LeadingSpaces(s)..] == x[LeadingSpaces(x)..];
  }

  /**
   * "<town>, <state>" with a comma-free, stripped town and state: the state is
   * looked up as it is, then with its periods removed; a hit gives
   * "<town>, <code>", and the path fails exactly when both lookups miss.
   */
  lemma CommaStateOneTown(t: string, p: string)
    requires ',' !in t && ',' !in p && Strip(t) == t && Strip(p) == p
    ensures StateAbbrev(p).Some? ==> CommaState(t + ", " + p) == Some(t + ", " + StateAbbrev(p).value)
    ensures StateAbbrev(p).None? && StateAbbrev(RemoveChar(p, '.')).Some? ==>
      CommaState(t + ", " + p) == Some(t + ", " + StateAbbrev(RemoveChar(p, '.')).value)
    ensures CommaState(t + ", " + p).None? <==> StateAbbrev(p).None? && StateAbbrev(RemoveChar(p, '.')).None?
  {
    var parts := Split(t + ", " + p, ',');
    SplitTownForm(t, p);
    StripAfterSpace(p);
    assert Strip(parts[|parts| - 1]) == p;
    assert parts[..|parts| - 1] == [t];
    assert Strip(Join(", ", [t])) == t;
  }

  /**
   * "<town1>, <town2>, <state>": the town segments are re-joined with ", "
   * after the split has left the space before the second, so the result reads
   * "<town1>,  <town2>, <code>" with two spaces.
   */
  lemma CommaStateTwoTowns(t1: string, t2: string, p: string)
    requires ',' !in t1 && ',' !in t2 && ',' !in p
    requires Strip(t1) == t1 && Strip(t2) == t2 && t2 != [] && Strip(p) == p
    ensures StateAbbrev(p).Some? ==>
      CommaState(t1 + ", " + t2 + ", " + p) == Some(t1 + ",  " + t2 + ", " + StateAbbrev(p).value)
    ensures StateAbbrev(p).None? && StateAbbrev(RemoveChar(p, '.')).Some? ==>
      CommaState(t1 + ", " + t2 + ", " + p) == Some(t1 + ",  " + t2 + ", " + StateAbbrev(RemoveChar(p, '.')).value)
    ensures CommaState(t1 + ", " + t2 + ", " + p).None? <==> StateAbbrev(p).None? && StateAbbrev(RemoveChar(p, '.')).None?
  {
    var loc := t1 + ", " + t2 + ", " + p;
    TwoTownsSplit(t1, t2, p);
    TwoTownsJoined(t1, t2);
    StripAfterSpace(p);
    var parts := Split(loc, ',');
    assert Strip(parts[|parts| - 1]) == p;
    assert parts[..|parts| - 1] == [t1, " " + t2];
  }

  lemma TwoTownsSplit(t1: string, t2: string, p: string)
    requires ',' !in t1 && ',' !in t2 && ',' !in p
    ensures Split(t1 + ", " + t2 + ", " + p, ',') == [t1, " " + t2, " " + p]
  {
    assert t1 + ", " + t2 + ", " + p == t1 + [','] + ((" " + t2) + ", " + p);
    SplitAfterPrefix(t1, (" " + t2) + ", " + p, ',');
    SplitTownForm(" " + t2, p);
  }

  /** The second town keeps its leading space through the split, so the join puts two spaces after the comma. */
  lemma TwoTownsJoined(t1: string, t2: string)
    requires Strip(t1) == t1 && Strip(t2) == t2 && t2 != []
    ensures Strip(Join(", ", [t1, " " + t2])) == t1 + ",  " + t2
  {
    var town := t1 + ",  " + t2;
    assert Join(", ", [t1, " " + t2]) == town by {
      assert [t1, " " + t2][1..] == [" " + t2];
    }
    StripIdentity(t1);
    StripIdentity(t2);
    StripIdentity(town);
    assert town[|town| - 1] == t2[|t2| - 1];
  }

  /** The piece " XY" after the comma strips to the code. */
  lemma StateCodePiece(code: string)
    requires IsStateCode(code)
    ensures Strip(" " + code) == code
  {
    StripSpacedCode(code);
  }

  lemma SplitTownForm(t: string, code: string)
    requires ',' !in t && ',' !in code
    ensures Split(t + ", " + code, ',') == [t, " " + code]
  {
    assert t + ", " + code == t + [','] + (" " + code);
    SplitAfterPrefix(t, " " + code, ',');
    SplitWithoutSeparator(" " + code, ',');
  }

  /** A single-spaced town, a comma, a space and a code make single-spaced text. */
  lemma SingleSpacedTownForm(t: string, code: string)
    requires IsStateCode(code) && SingleSpaced(t)
    ensures SingleSpaced(t + ", " + code)
  {
    var s := t + ", " + code;
    forall i | 0 <= i < |s| && IsSpace(s[i])
      ensures s[i] == ' ' && 0 < i < |s| - 1 && !IsSpace(s[i + 1])
    {
      if i < |t| {
        assert s[i] == t[i] && s[i + 1] == t[i + 1];
      } else {
        assert i == |t| + 1 && s[i + 1] == code[0];
      }
    }
  }

  /**
   * "<town>, <code>" with a valid code, a comma-free single-spaced town and no
   * override key anywhere in it is standardised to itself.
   */
  lemma TownFormFixedPoint(t: string, code: string)
    requires IsStateCode(code) && ',' !in t && SingleSpaced(t)
    requires forall j :: 0 <= j < OVERRIDE_COUNT ==> !Contains(Lower(t + ", " + code), Lower(OverrideKey(j)))
    ensures Standardize(Some(t + ", " + code)) == t + ", " + code
  {
    var s := t + ", " + code;
    NoOverrideFrom(Lower(s), 0);
    SingleSpacedTownForm(t, code);
    StripIdentity(t);
    CommaStateTownForm(t, code);
    StandardizeNoOverride(s);
  }

  /** A town form is never "Abroad". */
  lemma TownFormNotAbroad(r: string)
    requires IsTownForm(r)
    ensures r != ABROAD
  {
  }

  /**
   * "Abroad" comes from the international stage only: no override key, no
   * comma path, and a whole-word international name.
   */
  lemma ResolveAbroadIff(loc: string)
    ensures Resolve(loc) == ABROAD <==>
      FirstOverride(Lower(loc)).None? && CommaPath(loc).None? && IsInternational(loc)
  {
    match FirstOverride(Lower(loc))
    case Some(j) =>
      OverrideValuesTownForm(j);
      TownFormNotAbroad(OVERRIDE_VALUES[j]);
    case None =>
      if CommaPath(loc).Some? {
        TownFormNotAbroad(CommaPath(loc).value);
      }
  }

  /** `standardize_location` gives "Abroad" exactly when the international stage decides. */
  lemma StandardizeAbroadIff(s: string)
    ensures Standardize(Some(s)) == ABROAD <==>
      var loc := Collapse(s);
      FirstOverride(Lower(loc)).None? && CommaPath(loc).None? && IsInternational(loc)
  {
    ResolveAbroadIff(Collapse(s));
    if s == "" {
      assert Collapse("") == "";
      EmptyNotInternational();
    }
  }

  /**
   * On a single word the whole-word search is exact membership: the only
   * boundaries are its two ends.
   */
  lemma WordInternational(w: string)
    requires w != [] && forall i :: 0 <= i < |w| ==> IsWordChar(w[i])
    ensures IsInternational(w) <==> IsIntlWord(w)
  {
    if IsIntlWord(w) {
      assert Boundary(w, 0) && Boundary(w, |w|) && w[0..|w|] == w;
    }
    if IsInternational(w) {
      var i, j :| 0 <= i <= j <= |w| && Boundary(w, i) && Boundary(w, j) && IsIntlWord(w[i..j]);
      assert i == 0 || i == |w|;
      assert j == 0 || j == |w|;
      assert w[0..|w|] == w;
    }
  }

  /** Text shorter than every key matches no override. */
  lemma ShortNoOverride(low: string)
    requires |low| < 4
    ensures FirstOverride(low).None?
  {
    forall j | 0 <= j < OVERRIDE_COUNT ensures !Contains(low, Lower(OverrideKey(j))) {
      ContainsLength(low, Lower(OverrideKey(j)));
    }
    NoOverrideFrom(low, 0);
  }

  /** A bare state code is standardised to itself. */
  lemma StateCodeFixedPoint(code: string)
    requires IsStateCode(code)
    ensures Standardize(Some(code)) == code
  {
    CodeShape(code);
    StandardizeNoOverride(code);
    StateCodeResolveComma(code);
  }

  lemma CodeShape(code: string)
    requires |code| == 2 && IsAsciiUpper(code[0]) && IsAsciiUpper(code[1])
    ensures SingleSpaced(code) && code != "" && FirstOverride(Lower(code)).None?
  {
    ShortNoOverride(Lower(code));
  }

  lemma StateCodeResolveComma(code: string)
    requires IsStateCode(code)
    ensures ResolveComma(code) == code
  {
    WordInternational(code);
    assert ResolveState(code) == code;
  }

  /**
   * A single word without an override key goes through the international
   * stage as an exact membership test, then on to the state and city stages.
   */
  lemma SingleWord(w: string)
    requires w != [] && forall i :: 0 <= i < |w| ==> IsWordChar(w[i])
    requires FirstOverride(Lower(w)).None?
    ensures Standardize(Some(w)) == if IsIntlWord(w) then ABROAD else ResolveState(w)
  {
    assert SingleSpaced(w);
    StandardizeNoOverride(w);
    WordInternational(w);
    assert ',' !in w;
  }

  /** Keys `i .. n - 1` that do not occur are passed over. */
  lemma {:induction false} SkipKeys(low: string, i: nat, n: nat)
    requires i <= n <= OVERRIDE_COUNT
    requires forall j :: i <= j < n ==> !Contains(low, Lower(OverrideKey(j)))
    ensures FirstOverrideFrom(low, i) == FirstOverrideFrom(low, n)
    decreases n - i
  {
    if i < n {
      SkipKeys(low, i + 1, n);
    }
  }

  /** Every key but "Lima" has at least nine characters. */
  lemma LongKeys(j: nat)
    requires j < OVERRIDE_COUNT - 1
    ensures |Lower(OverrideKey(j))| >= 9
  {
  }

  /** Text of at most eight characters can only hit the "Lima" override. */
  lemma ShortTextOverride(low: string)
    requires |low| < 9
    ensures FirstOverride(low) == if Contains(low, "lima") then Some(10) else None
  {
    SkipLongKeys(low);
    LimaLast(low);
  }

  lemma SkipLongKeys(low: string)
    requires |low| < 9
    ensures FirstOverride(low) == FirstOverrideFrom(low, 10)
  {
    forall j | 0 <= j < OVERRIDE_COUNT - 1 ensures !Contains(low, Lower(OverrideKey(j))) {
      LongKeys(j);
      ContainsLength(low, Lower(OverrideKey(j)));
    }
    SkipKeys(low, 0, 10);
  }

  lemma LimaLast(low: string)
    ensures FirstOverrideFrom(low, 10) == if Contains(low, "lima") then Some(10) else None
  {
    assert Lower(OverrideKey(10)) == "lima";
  }

  /** A key with one of its characters, lower-cased, missing from `low` does not occur. */
  lemma KeyAbsent(low: string, j: nat, k: nat)
    requires j < OVERRIDE_COUNT && k < |OverrideKey(j)| && LowerChar(OverrideKey(j)[k]) !in low
    ensures !Contains(low, Lower(OverrideKey(j)))
  {
    var key := OverrideKey(j);
    assert Lower(key)[k] == LowerChar(key[k]);
    ContainsChar(low, Lower(key), LowerChar(key[k]));
  }

  /** Every key but "Mar-a-Lago", "Arlington" and "Lima" has an 'e'. */
  lemma EarlyKeysWithoutE(low: string)
    requires 'e' !in low
    ensures forall j :: 0 <= j < 4 ==> !Contains(low, Lower(OverrideKey(j)))
  {
    KeyAbsent(low, 0, 2);
    KeyAbsent(low, 1, 2);
    KeyAbsent(low, 2, 2);
    KeyAbsent(low, 3, 1);
  }

  lemma MiddleKeysWithoutE(low: string)
    requires 'e' !in low
    ensures forall j :: 5 <= j < 9 ==> !Contains(low, Lower(OverrideKey(j)))
  {
    KeyAbsent(low, 5, 9);
    KeyAbsent(low, 6, 4);
    KeyAbsent(low, 7, 9);
    KeyAbsent(low, 8, 4);
  }

  /**
   * Text with neither an 'e' nor a '-' matches none of the first nine keys,
   * so only "Arlington" and "Lima" remain.
   */
  lemma OnlyLateOverrides(low: string)
    requires 'e' !in low && '-' !in low
    ensures FirstOverride(low) == FirstOverrideFrom(low, 9)
  {
    EarlyKeysWithoutE(low);
    MiddleKeysWithoutE(low);
    KeyAbsent(low, 4, 3);
    SkipKeys(low, 0, 9);
  }

  /** Text with neither an 'e' nor an 'l' matches no override at all. */
  lemma NoOverrideWithout(low: string)
    requires 'e' !in low && 'l' !in low
    ensures FirstOverride(low).None?
  {
    EarlyKeysWithoutE(low);
    MiddleKeysWithoutE(low);
    KeyAbsent(low, 4, 6);
    KeyAbsent(low, 9, 2);
    KeyAbsent(low, 10, 0);
    NoOverrideFrom(low, 0);
  }
}
