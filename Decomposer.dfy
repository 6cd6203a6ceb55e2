/**
 * The string logic of the speech page scraper: the title and the date read
 * off the page header, the sentence, word and second counts of the
 * candidate's statistics block, the flattened categories of the
 * breadcrumbs, and the candidate's lines of the transcript. Each input is
 * the text the page lookups return, already stripped.
 */
module Decomposer {
  import opened Wrappers
  import opened Text
  import opened Frames

  // ---------------------------------------------------------------------------
  // Header: title and date
  // ---------------------------------------------------------------------------

  /** The index of the first line break at or after `i`, or the length: where `.+` must stop. */
  function LineEnd(s: string, i: nat): (e: nat)
    requires i <= |s|
    ensures i <= e <= |s| && (e < |s| ==> s[e] == '\n')
    ensures forall j :: i <= j < e ==> s[j] != '\n'
    decreases |s| - i
  {
    if i == |s| || s[i] == '\n' then i else LineEnd(s, i + 1)
  }

  /** The last hyphen before index `n` that has at least one character before it. */
  function LastHyphenBefore(s: string, n: nat): (k: Option<nat>)
    requires n <= |s|
    ensures k.Some? ==> 1 <= k.value < n && s[k.value] == '-' && forall j :: k.value < j < n ==> s[j] != '-'
    ensures k.None? ==> forall j :: 1 <= j < n ==> s[j] != '-'
  {
    if n <= 1 then None
    else if s[n - 1] == '-' then Some(n - 1)
    else LastHyphenBefore(s, n - 1)
  }

  /**
   * `get_title`: `re.search(r"^(.+)-", header).group(1).strip()`. The greedy
   * group runs up to the last hyphen of the first line that has a character
   * before it; without one `.group` is called on `None`.
   */
  function Title(header: string): (r: Result<string>)
    ensures r.Err? <==> forall j :: 1 <= j < LineEnd(header, 0) ==> header[j] != '-'
    ensures r.Err? ==> r.error == AttributeError
    ensures r.Ok? ==> exists k ::
      && 1 <= k < LineEnd(header, 0) && header[k] == '-'
      && (forall j :: k < j < LineEnd(header, 0) ==> header[j] != '-')
      && r.value == Strip(header[..k])
  {
    match LastHyphenBefore(header, LineEnd(header, 0))
    case None => Err(AttributeError)
    case Some(k) => Ok(Strip(header[..k]))
  }

  /** Where `-\s(.+)` can match: a hyphen, a whitespace character and a character that is not a line break. */
  predicate DateAt(s: string, k: int) {
    0 <= k && k + 2 < |s| && s[k] == '-' && IsSpace(s[k + 1]) && s[k + 2] != '\n'
  }

  /** The start of the leftmost match of `-\s(.+)` at or after `i`. */
  function DateStart(s: string, i: nat): (k: Option<nat>)
    requires i <= |s|
    ensures k.Some? ==> i <= k.value && DateAt(s, k.value) && forall j :: i <= j < k.value ==> !DateAt(s, j)
    ensures k.None? ==> forall j :: i <= j ==> !DateAt(s, j)
    decreases |s| - i
  {
    if i + 2 >= |s| then None
    else if DateAt(s, i) then Some(i)
    else DateStart(s, i + 1)
  }

  /**
   * `get_date`: `re.search(r"-\s(.+)", header).group(1).strip()`, the rest of
   * the line after the first hyphen followed by whitespace and a character
   * that is not a line break; without one `.group` is called on `None`.
   */
  function Date(header: string): (r: Result<string>)
    ensures r.Err? <==> forall k :: !DateAt(header, k)
    ensures r.Err? ==> r.error == AttributeError
    ensures r.Ok? ==> exists k ::
      && DateAt(header, k) && (forall j :: 0 <= j < k ==> !DateAt(header, j))
      && r.value == Strip(header[k + 2..LineEnd(header, k + 2)])
  {
    match DateStart(header, 0)
    case None => Err(AttributeError)
    case Some(k) => Ok(Strip(header[k + 2..LineEnd(header, k + 2)]))
  }

  lemma {:induction false} DateStartSkips(s: string, i: nat, k: nat)
    requires i <= k < |s| && DateAt(s, k) && forall j :: i <= j < k ==> !DateAt(s, j)
    ensures DateStart(s, i) == Some(k)
    decreases k - i
  {
    if i < k {
      DateStartSkips(s, i + 1, k);
    }
  }

  lemma {:induction false} LastHyphenIs(s: string, n: nat, m: nat)
    requires 1 <= m < n <= |s| && s[m] == '-' && forall j :: m < j < n ==> s[j] != '-'
    ensures LastHyphenBefore(s, n) == Some(m)
    decreases n
  {
    if n - 1 > m {
      LastHyphenIs(s, n - 1, m);
    }
  }

  lemma {:induction false} LineEndAtEnd(s: string, i: nat)
    requires i <= |s| && forall j :: i <= j < |s| ==> s[j] != '\n'
    ensures LineEnd(s, i) == |s|
    decreases |s| - i
  {
    if i < |s| {
      LineEndAtEnd(s, i + 1);
    }
  }

  /** On a single line, the title is the text before the last hyphen that has a character before it. */
  lemma TitleOfLine(s: string, m: nat)
    requires '\n' !in s && 1 <= m < |s| && s[m] == '-' && forall j :: m < j < |s| ==> s[j] != '-'
    ensures Title(s) == Ok(Strip(s[..m]))
  {
    LineEndAtEnd(s, 0);
    LastHyphenIs(s, |s|, m);
  }

  /** On a single line, the date is the text after the first hyphen followed by whitespace. */
  lemma DateOfLine(s: string, k: nat)
    requires '\n' !in s && DateAt(s, k) && forall j :: 0 <= j < k ==> !DateAt(s, j)
    ensures Date(s) == Ok(Strip(s[k + 2..]))
  {
    DateStartSkips(s, 0, k);
    LineEndAtEnd(s, k + 2);
    var rest := s[k + 2..LineEnd(s, k + 2)];
    assert rest == s[k + 2..];
    assert Date(s) == Ok(Strip(rest));
  }

  /** The header `a- b` with one hyphen, on one line. */
  predicate OneHyphenHeader(s: string, a: string, b: string) {
    && a != [] && b != [] && '-' !in a && '-' !in b && '\n' !in a && '\n' !in b
    && s == a + "- " + b
  }

  lemma OneHyphenShape(s: string, a: string, b: string)
    requires OneHyphenHeader(s, a, b)
    ensures '\n' !in s && s[|a|] == '-' && s[|a| + 1] == ' ' && s[|a| + 2] == b[0]
    ensures forall j :: 0 <= j < |a| ==> s[j] == a[j]
    ensures forall j :: |a| < j < |s| ==> s[j] != '-'
    ensures s[..|a|] == a && s[|a| + 2..] == b
  {
    forall j | |a| + 2 <= j < |s| ensures s[j] == b[j - |a| - 2] {
    }
  }

  /** One line `a- b` with a single hyphen: the title is `a` and the date is `b`, both stripped. */
  lemma OneHyphen(s: string, a: string, b: string)
    requires OneHyphenHeader(s, a, b)
    ensures Title(s) == Ok(Strip(a)) && Date(s) == Ok(Strip(b))
  {
    OneHyphenShape(s, a, b);
    TitleOfLine(s, |a|);
    forall j | 0 <= j < |a| ensures !DateAt(s, j) {
      assert s[j] == a[j];
    }
    DateOfLine(s, |a|);
  }

  /** The header `a- b- c` with two hyphens, on one line. */
  predicate TwoHyphenHeader(s: string, a: string, b: string, c: string) {
    && a != [] && b != [] && c != []
    && '-' !in a && '-' !in b && '-' !in c && '\n' !in a && '\n' !in b && '\n' !in c
    && s == a + "- " + b + "- " + c
  }

  lemma TwoHyphenShape(s: string, a: string, b: string, c: string)
    requires TwoHyphenHeader(s, a, b, c)
    ensures '\n' !in s && s[|a|] == '-' && s[|a| + 1] == ' ' && s[|a| + 2] == b[0]
    ensures forall j :: 0 <= j < |a| ==> s[j] == a[j]
    ensures s[|a| + 2 + |b|] == '-' && forall j :: |a| + 2 + |b| < j < |s| ==> s[j] != '-'
    ensures s[..|a| + 2 + |b|] == a + "- " + b && s[|a| + 2..] == b + "- " + c
  {
    var m := |a| + 2 + |b|;
    forall j | m + 2 <= j < |s| ensures s[j] == c[j - m - 2] {
    }
  }

  /**
   * With two hyphens the two readings overlap: the title runs to the last
   * hyphen and the date starts after the first.
   */
  lemma TwoHyphens(s: string, a: string, b: string, c: string)
    requires TwoHyphenHeader(s, a, b, c)
    ensures Title(s) == Ok(Strip(a + "- " + b)) && Date(s) == Ok(Strip(b + "- " + c))
  {
    TwoHyphenShape(s, a, b, c);
    TwoHyphensTitle(s, a, b);
    TwoHyphensDate(s, a, b + "- " + c);
  }

  lemma TwoHyphensTitle(s: string, a: string, b: string)
    requires '\n' !in s && |a| + 2 + |b| < |s| && s[|a| + 2 + |b|] == '-' && s[..|a| + 2 + |b|] == a + "- " + b
    requires a != [] && forall j :: |a| + 2 + |b| < j < |s| ==> s[j] != '-'
    ensures Title(s) == Ok(Strip(a + "- " + b))
  {
    TitleOfLine(s, |a| + 2 + |b|);
  }

  lemma TwoHyphensDate(s: string, a: string, rest: string)
    requires '\n' !in s && |a| + 2 < |s| && s[|a|] == '-' && s[|a| + 1] == ' ' && s[|a| + 2] != '\n'
    requires s[|a| + 2..] == rest && forall j :: 0 <= j < |a| ==> s[j] != '-'
    ensures Date(s) == Ok(Strip(rest))
  {
    DateOfLine(s, |a|);
  }

  // ---------------------------------------------------------------------------
  // Statistics block
  // ---------------------------------------------------------------------------

  /** A statistics block: the speaker name shown in it and the texts of its entries. */
  datatype Block = Block(name: string, contents: seq<string>)

  /** The block the loop ends with: the last one whose name contains `lastName`. */
  function LastBlock(blocks: seq<Block>, lastName: string): (b: Option<Block>)
    ensures b.Some? ==> exists i ::
      && 0 <= i < |blocks| && blocks[i] == b.value && Contains(blocks[i].name, lastName)
      && forall j :: i < j < |blocks| ==> !Contains(blocks[j].name, lastName)
    ensures b.None? ==> forall j :: 0 <= j < |blocks| ==> !Contains(blocks[j].name, lastName)
    decreases |blocks|
  {
    if blocks == [] then None
    else if Contains(blocks[|blocks| - 1].name, lastName) then Some(blocks[|blocks| - 1])
    else LastBlock(blocks[..|blocks| - 1], lastName)
  }

  /** The index of the first digit at or after `i`. */
  function FirstDigitFrom(s: string, i: nat): (k: Option<nat>)
    requires i <= |s|
    ensures k.Some? ==> i <= k.value < |s| && IsDigit(s[k.value]) && forall j :: i <= j < k.value ==> !IsDigit(s[j])
    ensures k.None? ==> forall j :: i <= j < |s| ==> !IsDigit(s[j])
    decreases |s| - i
  {
    if i == |s| then None else if IsDigit(s[i]) then Some(i) else FirstDigitFrom(s, i + 1)
  }

  /** The length of the run of digits starting at `i`. */
  function DigitsFrom(s: string, i: nat): (n: nat)
    requires i <= |s|
    ensures i + n <= |s| && (forall j :: i <= j < i + n ==> IsDigit(s[j])) && (i + n < |s| ==> !IsDigit(s[i + n]))
    decreases |s| - i
  {
    if i < |s| && IsDigit(s[i]) then 1 + DigitsFrom(s, i + 1) else 0
  }

  /** `d` occurs at `k` with no digit before it and none right after it: the leftmost run of digits, whole. */
  predicate LeftmostRunAt(s: string, k: nat, d: string) {
    && k + |d| <= |s| && s[k..k + |d|] == d
    && (forall j :: 0 <= j < k ==> !IsDigit(s[j]))
    && (k + |d| == |s| || !IsDigit(s[k + |d|]))
  }

  /** `re.search(r'\d+', content).group()`: the first run of digits, whole; `None` without a digit. */
  function FirstNumber(content: string): (r: Option<string>)
    ensures r.Some? ==> r.value != [] && forall j :: 0 <= j < |r.value| ==> IsDigit(r.value[j])
    ensures r.None? <==> forall j :: 0 <= j < |content| ==> !IsDigit(content[j])
    ensures r.Some? ==> exists k: nat :: LeftmostRunAt(content, k, r.value)
  {
    match FirstDigitFrom(content, 0)
    case None => None
    case Some(k) =>
      var d := content[k..k + DigitsFrom(content, k)];
      assert LeftmostRunAt(content, k, d);
      Some(d)
  }

  /** The three counts as strings; each stays `""` until an entry sets it. */
  datatype Stats = Stats(sentences: string, words: string, seconds: string)

  /** Which count an entry sets: 0 sentences, 1 words, 2 seconds. */
  function Kind(content: string): (k: nat)
    ensures k <= 2
  {
    if Contains(content, "sentences") then 0 else if Contains(content, "words") then 1 else 2
  }

  function Field(st: Stats, kind: nat): string {
    if kind == 0 then st.sentences else if kind == 1 then st.words else st.seconds
  }

  /** One pass of the entry loop: the number of the entry goes into the count its text names. */
  function Step(st: Stats, content: string): (r: Result<Stats>)
    ensures r.Err? <==> FirstNumber(content).None?
    ensures r.Ok? ==> forall kind :: kind <= 2 ==>
      Field(r.value, kind) == if kind == Kind(content) then FirstNumber(content).value else Field(st, kind)
  {
    match FirstNumber(content)
    case None => Err(AttributeError)
    case Some(d) =>
      if Contains(content, "sentences") then Ok(st.(sentences := d))
      else if Contains(content, "words") then Ok(st.(words := d))
      else Ok(st.(seconds := d))
  }

  /** The counts after the entries `cs`, in order; an entry without a digit raises. */
  function StatsOf(cs: seq<string>): Result<Stats>
    decreases |cs|
  {
    if cs == [] then Ok(Stats("", "", ""))
    else
      match StatsOf(cs[..|cs| - 1])
      case Err(e) => Err(e)
      case Ok(st) => Step(st, cs[|cs| - 1])
  }

  /** The entries succeed exactly when every one of them holds a digit. */
  lemma {:induction false} StatsOkIff(cs: seq<string>)
    ensures StatsOf(cs).Ok? <==> forall i :: 0 <= i < |cs| ==> FirstNumber(cs[i]).Some?
    decreases |cs|
  {
    if cs != [] {
      var init := cs[..|cs| - 1];
      StatsOkIff(init);
      assert forall i :: 0 <= i < |init| ==> init[i] == cs[i];
      if StatsOf(init).Ok? {
        assert StatsOf(cs).Ok? <==> FirstNumber(cs[|cs| - 1]).Some?;
      }
    }
  }

  /** A count is the number of the last entry of its kind: later entries overwrite earlier ones. */
  lemma {:induction false} LastEntryWins(cs: seq<string>, kind: nat, i: nat)
    requires StatsOf(cs).Ok? && kind <= 2
    requires i < |cs| && Kind(cs[i]) == kind && forall j :: i < j < |cs| ==> Kind(cs[j]) != kind
    ensures FirstNumber(cs[i]).Some? && Field(StatsOf(cs).value, kind) == FirstNumber(cs[i]).value
    decreases |cs|
  {
    StatsOkIff(cs);
    var init := cs[..|cs| - 1];
    if i < |cs| - 1 {
      assert StatsOf(init).Ok?;
      LastEntryWins(init, kind, i);
    }
  }

  /** A count no entry names stays `""`. */
  lemma {:induction false} UnnamedCountEmpty(cs: seq<string>, kind: nat)
    requires StatsOf(cs).Ok? && kind <= 2
    requires forall j :: 0 <= j < |cs| ==> Kind(cs[j]) != kind
    ensures Field(StatsOf(cs).value, kind) == ""
    decreases |cs|
  {
    if cs != [] {
      var init := cs[..|cs| - 1];
      assert StatsOf(init).Ok?;
      UnnamedCountEmpty(init, kind);
    }
  }

  /** An error in the entries seen so far is the result of the whole loop. */
  lemma {:induction false} StatsErrStays(cs: seq<string>, n: nat)
    requires n <= |cs| && StatsOf(cs[..n]).Err?
    ensures StatsOf(cs) == StatsOf(cs[..n])
    decreases |cs| - n
  {
    if n < |cs| {
      assert cs[..n + 1][..n] == cs[..n];
      StatsErrStays(cs, n + 1);
    } else {
      assert cs[..n] == cs;
    }
  }

  /** The only error the entry loop raises is `AttributeError`, from `.group()` on a failed search. */
  lemma {:induction false} StatsErrIsAttribute(cs: seq<string>)
    requires StatsOf(cs).Err?
    ensures StatsOf(cs).error == AttributeError
    decreases |cs|
  {
    if StatsOf(cs[..|cs| - 1]).Err? {
      StatsErrIsAttribute(cs[..|cs| - 1]);
    }
  }

  /** Both count facts at once: each count is its last entry's number, or `""` when no entry names it. */
  lemma StatsFields(cs: seq<string>)
    requires StatsOf(cs).Ok?
    ensures forall i :: 0 <= i < |cs| && (forall j :: i < j < |cs| ==> Kind(cs[j]) != Kind(cs[i])) ==>
      FirstNumber(cs[i]).Some? && Field(StatsOf(cs).value, Kind(cs[i])) == FirstNumber(cs[i]).value
    ensures forall kind: nat :: kind <= 2 && (forall j :: 0 <= j < |cs| ==> Kind(cs[j]) != kind) ==>
      Field(StatsOf(cs).value, kind) == ""
  {
    forall i | 0 <= i < |cs| && (forall j :: i < j < |cs| ==> Kind(cs[j]) != Kind(cs[i]))
      ensures FirstNumber(cs[i]).Some? && Field(StatsOf(cs).value, Kind(cs[i])) == FirstNumber(cs[i]).value
    {
      LastEntryWins(cs, Kind(cs[i]), i);
    }
    forall kind: nat | kind <= 2 && (forall j :: 0 <= j < |cs| ==> Kind(cs[j]) != kind)
      ensures Field(StatsOf(cs).value, kind) == ""
    {
      UnnamedCountEmpty(cs, kind);
    }
  }

  /** The entries the counts are read from: those of the chosen block, none without one. */
  function ChosenEntries(blocks: seq<Block>, lastName: string): seq<string> {
    match LastBlock(blocks, lastName)
    case None => []
    case Some(b) => b.contents
  }

  /**
   * `get_nbr_sentences_nbr_words_nbr_seconds` as a function of the blocks:
   * `AttributeError` exactly when an entry of the chosen block has no digit;
   * otherwise [sentences, words, seconds], each the number of the last entry
   * of its kind, or `""` when no entry names it (all three without a block).
   */
  function BlockStats(blocks: seq<Block>, lastName: string): (r: Result<seq<string>>)
    ensures r.Ok? <==> forall i :: 0 <= i < |ChosenEntries(blocks, lastName)| ==> FirstNumber(ChosenEntries(blocks, lastName)[i]).Some?
    ensures r.Err? ==> r.error == AttributeError
    ensures r.Ok? ==> |r.value| == 3
    ensures r.Ok? ==> forall i ::
      && 0 <= i < |ChosenEntries(blocks, lastName)|
      && (forall j :: i < j < |ChosenEntries(blocks, lastName)| ==> Kind(ChosenEntries(blocks, lastName)[j]) != Kind(ChosenEntries(blocks, lastName)[i]))
      ==> r.value[Kind(ChosenEntries(blocks, lastName)[i])] == FirstNumber(ChosenEntries(blocks, lastName)[i]).value
    ensures r.Ok? ==> forall kind: nat ::
      kind <= 2 && (forall j :: 0 <= j < |ChosenEntries(blocks, lastName)| ==> Kind(ChosenEntries(blocks, lastName)[j]) != kind)
      ==> r.value[kind] == ""
    ensures LastBlock(blocks, lastName).None? ==> r == Ok(["", "", ""])
  {
    var cs := ChosenEntries(blocks, lastName);
    StatsOkIff(cs);
    match StatsOf(cs)
    case Err(e) =>
      StatsErrIsAttribute(cs);
      Err(e)
    case Ok(st) =>
      StatsFields(cs);
      assert forall kind: nat :: kind <= 2 ==> [st.sentences, st.words, st.seconds][kind] == Field(st, kind);
      Ok([st.sentences, st.words, st.seconds])
  }

  /** `get_nbr_sentences_nbr_words_nbr_seconds`: picks the block, then reads its entries in order. */
  method GetStats(blocks: seq<Block>, lastName: string) returns (r: Result<seq<string>>)
    ensures r == BlockStats(blocks, lastName)
  {
    var chosen: Option<Block> := None;
    var i := 0;
    while i < |blocks|
      invariant 0 <= i <= |blocks| && chosen == LastBlock(blocks[..i], lastName)
    {
      assert blocks[..i + 1][..i] == blocks[..i];
      if Contains(blocks[i].name, lastName) {
        chosen := Some(blocks[i]);
      }
      i := i + 1;
    }
    assert blocks[..|blocks|] == blocks;
    var sentences, words, seconds := "", "", "";
    if chosen.Some? {
      var contents := chosen.value.contents;
      assert contents == ChosenEntries(blocks, lastName);
      var j := 0;
      while j < |contents|
        invariant 0 <= j <= |contents| && StatsOf(contents[..j]) == Ok(Stats(sentences, words, seconds))
      {
        var content := contents[j];
        assert contents[..j + 1][..j] == contents[..j];
        var d := FirstNumber(content);
        if d.None? {
          StatsErrStays(contents, j + 1);
          return Err(AttributeError);
        }
        if Contains(content, "sentences") {
          sentences := d.value;
        } else if Contains(content, "words") {
          words := d.value;
        } else {
          seconds := d.value;
        }
        j := j + 1;
      }
      assert contents[..|contents|] == contents;
    }
    r := Ok([sentences, words, seconds]);
  }

  // ---------------------------------------------------------------------------
  // Categories
  // ---------------------------------------------------------------------------

  /** The stripped `>`-separated pieces of one breadcrumb. */
  function Pieces(crumb: string): (ps: seq<string>)
    ensures |ps| == |Split(crumb, '>')| && forall j :: 0 <= j < |ps| ==> ps[j] == Strip(Split(crumb, '>')[j])
  {
    var parts := Split(crumb, '>');
    seq(|parts|, j requires 0 <= j < |parts| => Strip(parts[j]))
  }

  /**
   * `get_cleaned_categories`: every piece of every breadcrumb, once each. The
   * list `list(set(...))` makes has no set order and is modelled as the set.
   */
  function CleanedCategories(crumbs: seq<string>): (cats: set<string>)
    ensures forall c :: c in cats <==> exists i :: 0 <= i < |crumbs| && c in Pieces(crumbs[i])
  {
    set i, c | 0 <= i < |crumbs| && c in Pieces(crumbs[i]) :: c
  }

  lemma StripKeepsAbsent(s: string, c: char)
    requires c !in s
    ensures c !in Strip(s)
  {
    var t := s[LeadingSpaces(s)..];
    assert forall k :: 0 <= k < |t| ==> t[k] == s[LeadingSpaces(s) + k];
  }

  /** Every category is stripped and free of the separator. */
  lemma CategoriesClean(crumbs: seq<string>, c: string)
    requires c in CleanedCategories(crumbs)
    ensures '>' !in c && Strip(c) == c
  {
    var i :| 0 <= i < |crumbs| && c in Pieces(crumbs[i]);
    var parts := Split(crumbs[i], '>');
    var j :| 0 <= j < |parts| && c == Strip(parts[j]);
    SplitPiecesLackSeparator(crumbs[i], '>');
    StripKeepsAbsent(parts[j], '>');
    StripIdempotent(parts[j]);
  }

  lemma OneCrumb(crumb: string)
    ensures CleanedCategories([crumb]) == set p | p in Pieces(crumb)
  {
    var crumbs := [crumb];
    forall c ensures c in CleanedCategories(crumbs) <==> c in Pieces(crumb) {
      if c in Pieces(crumb) {
        assert 0 < |crumbs| && c in Pieces(crumbs[0]);
      }
    }
  }

  lemma TwoCrumbs(a: string, b: string)
    ensures CleanedCategories([a, b]) == (set p | p in Pieces(a)) + (set p | p in Pieces(b))
  {
    var crumbs := [a, b];
    forall c ensures c in CleanedCategories(crumbs) <==> c in Pieces(a) || c in Pieces(b) {
      if c in Pieces(a) {
        assert c in Pieces(crumbs[0]);
      }
      if c in Pieces(b) {
        assert c in Pieces(crumbs[1]);
      }
    }
  }

  lemma TwoLevelSplit(a: string, b: string)
    requires '>' !in a && '>' !in b
    ensures Split(a + ">" + b, '>') == [a, b]
  {
    assert a + ">" + b == a + ['>'] + b;
    SplitAfterPrefix(a, b, '>');
    SplitWithoutSeparator(b, '>');
  }

  /** A two-level breadcrumb `a>b` gives its two stripped parts. */
  lemma TwoLevelCrumb(a: string, b: string)
    requires '>' !in a && '>' !in b
    ensures CleanedCategories([a + ">" + b]) == {Strip(a), Strip(b)}
  {
    TwoLevelSplit(a, b);
    assert Pieces(a + ">" + b) == [Strip(a), Strip(b)];
    OneCrumb(a + ">" + b);
  }

  /** The same category under two breadcrumbs is listed once. */
  lemma SharedCategoryOnce(a: string, b: string)
    requires '>' !in a && '>' !in b
    ensures CleanedCategories([a, a + ">" + b]) == {Strip(a), Strip(b)}
  {
    TwoLevelSplit(a, b);
    SplitWithoutSeparator(a, '>');
    assert Pieces(a) == [Strip(a)];
    assert Pieces(a + ">" + b) == [Strip(a), Strip(b)];
    TwoCrumbs(a, a + ">" + b);
  }

  // ---------------------------------------------------------------------------
  // Transcript lines
  // ---------------------------------------------------------------------------

  /** A transcript entry: its speaker, its timestamp when the page has one, and its text. */
  datatype Entry = Entry(speaker: string, timestamp: Option<string>, text: string)

  function SpokenBy(fullName: string): (p: Entry -> bool)
    ensures forall e :: p(e) == Contains(e.speaker, fullName)
  {
    (e: Entry) => Contains(e.speaker, fullName)
  }

  /** `[timestamp, text]`, with `""` for a missing timestamp. */
  function TimedText(e: Entry): (line: seq<string>)
    ensures |line| == 2 && line[1] == e.text
    ensures line[0] == if e.timestamp.Some? then e.timestamp.value else ""
  {
    [if e.timestamp.Some? then e.timestamp.value else "", e.text]
  }

  /** The `[timestamp, text]` lines of the entries, in order. */
  function Lines(es: seq<Entry>): (lines: seq<seq<string>>)
    ensures |lines| == |es| && forall i :: 0 <= i < |es| ==> lines[i] == TimedText(es[i])
    decreases |es|
  {
    if es == [] then [] else [TimedText(es[0])] + Lines(es[1..])
  }

  /** The candidate's lines: the entries whose speaker contains the full name, in page order. */
  function CandidateLines(entries: seq<Entry>, fullName: string): (lines: seq<seq<string>>)
    ensures |lines| == |Where(entries, SpokenBy(fullName))|
    ensures forall i :: 0 <= i < |lines| ==> lines[i] == TimedText(Where(entries, SpokenBy(fullName))[i])
  {
    Lines(Where(entries, SpokenBy(fullName)))
  }

  /** `[speaker, timestamp, text]` as the loop lists it. */
  function Listed(e: Entry): (triple: seq<string>)
    ensures |triple| == 3 && triple[1..] == TimedText(e)
  {
    [e.speaker] + TimedText(e)
  }

  /** The comprehension over the listed triples: keep those of the speaker, drop the speaker. */
  function KeptLines(listed: seq<seq<string>>, fullName: string): seq<seq<string>>
    requires forall i :: 0 <= i < |listed| ==> |listed[i]| == 3
    decreases |listed|
  {
    if listed == [] then []
    else (if Contains(listed[0][0], fullName) then [listed[0][1..]] else []) + KeptLines(listed[1..], fullName)
  }

  lemma {:induction false} KeptLinesAreCandidateLines(entries: seq<Entry>, listed: seq<seq<string>>, fullName: string)
    requires |listed| == |entries| && forall i :: 0 <= i < |entries| ==> listed[i] == Listed(entries[i])
    requires forall i :: 0 <= i < |listed| ==> |listed[i]| == 3
    ensures KeptLines(listed, fullName) == Lines(Where(entries, SpokenBy(fullName)))
    decreases |entries|
  {
    if entries != [] {
      KeptLinesAreCandidateLines(entries[1..], listed[1..], fullName);
      var e := entries[0];
      var tail := Where(entries[1..], SpokenBy(fullName));
      if Contains(e.speaker, fullName) {
        assert Where(entries, SpokenBy(fullName)) == [e] + tail;
        assert ([e] + tail)[1..] == tail;
      } else {
        assert Where(entries, SpokenBy(fullName)) == tail;
      }
    }
  }

  /** `get_candidate_transcriptions`: lists every entry, then keeps the candidate's. */
  method GetCandidateTranscriptions(entries: seq<Entry>, fullName: string) returns (lines: seq<seq<string>>)
    ensures lines == CandidateLines(entries, fullName)
  {
    var listed: seq<seq<string>> := [];
    var i := 0;
    while i < |entries|
      invariant 0 <= i <= |entries| && |listed| == i
      invariant forall k :: 0 <= k < i ==> listed[k] == Listed(entries[k])
    {
      var e := entries[i];
      var timestamp := if e.timestamp.Some? then e.timestamp.value else "";
      listed := listed + [[e.speaker, timestamp, e.text]];
      i := i + 1;
    }
    KeptLinesAreCandidateLines(entries, listed, fullName);
    lines := KeptLines(listed, fullName);
  }
}
