/**
 * The Python string operations the core relies on, as functions on `seq<char>`:
 * `strip`, `rstrip(c)`, `lower`, `upper`, `isupper`, `in` (substring), `split(c)`,
 * `split()`, `join`, `replace(c, "")`, `rsplit(sep, 1)`, and the regex classes
 * `\s`, `\w`, `\d` and `\b`.
 */
module Text {
  import opened Wrappers

  /** Python's `str.isspace()`, which is what `split()`, `strip()` and the regex `\s` use. */
  predicate IsSpace(c: char) {
    || c == ' ' || ('\t' <= c <= '\r') || ('\U{1c}' <= c <= '\U{1f}')
    || c == '\U{85}' || c == '\U{a0}' || c == '\U{1680}'
    || ('\U{2000}' <= c <= '\U{200a}') || c == '\U{2028}' || c == '\U{2029}'
    || c == '\U{202f}' || c == '\U{205f}' || c == '\U{3000}'
  }

  /** The regex class `\d`, on ASCII digits. */
  predicate IsDigit(c: char) { '0' <= c <= '9' }

  predicate IsAsciiUpper(c: char) { 'A' <= c <= 'Z' }
  predicate IsAsciiLower(c: char) { 'a' <= c <= 'z' }

  /** The regex class `\w`, on ASCII letters, digits and underscore. */
  predicate IsWordChar(c: char) { IsAsciiUpper(c) || IsAsciiLower(c) || IsDigit(c) || c == '_' }

  function LowerChar(c: char): (r: char)
    ensures IsAsciiUpper(c) ==> IsAsciiLower(r)
    ensures !IsAsciiUpper(c) ==> r == c
  {
    if IsAsciiUpper(c) then (c as int + 32) as char else c
  }

  function UpperChar(c: char): (r: char)
    ensures IsAsciiLower(c) ==> IsAsciiUpper(r)
    ensures !IsAsciiLower(c) ==> r == c
  {
    if IsAsciiLower(c) then (c as int - 32) as char else c
  }

  /** `s.lower()`, character by character. */
  function Lower(s: string): string {
    seq(|s|, i requires 0 <= i < |s| => LowerChar(s[i]))
  }

  /** Lower-casing keeps every character that is not an upper-case letter. */
  lemma LowerKeeps(s: string, c: char)
    requires c in s && !IsAsciiUpper(c)
    ensures c in Lower(s)
  {
    var i :| 0 <= i < |s| && s[i] == c;
    assert Lower(s)[i] == c;
  }

  /** `s.upper()`, character by character. */
  function Upper(s: string): string {
    seq(|s|, i requires 0 <= i < |s| => UpperChar(s[i]))
  }

  /** Upper-casing leaves a string without lower-case letters unchanged. */
  lemma UpperIdentity(s: string)
    requires forall i :: 0 <= i < |s| ==> !IsAsciiLower(s[i])
    ensures Upper(s) == s
  {
  }

  /** `s.isupper()`: at least one cased character and no lower-case one. */
  predicate IsUpper(s: string) {
    (exists i :: 0 <= i < |s| && IsAsciiUpper(s[i])) && forall i :: 0 <= i < |s| ==> !IsAsciiLower(s[i])
  }

  predicate StartsWith(s: string, p: string) {
    |p| <= |s| && s[..|p|] == p
  }

  /** An occurrence of `p` in `s` at index `i`. */
  predicate OccursAt(s: string, p: string, i: int) {
    0 <= i && i + |p| <= |s| && s[i..i + |p|] == p
  }

  /** Python's `p in s` for strings. */
  predicate Contains(s: string, p: string)
    decreases |s|
  {
    StartsWith(s, p) || (|s| > 0 && Contains(s[1..], p))
  }

  lemma {:induction false} ContainsIff(s: string, p: string)
    ensures Contains(s, p) <==> exists i :: OccursAt(s, p, i)
    decreases |s|
  {
    if StartsWith(s, p) {
      assert OccursAt(s, p, 0);
    } else if |s| > 0 {
      ContainsIff(s[1..], p);
      if Contains(s[1..], p) {
        var i :| OccursAt(s[1..], p, i);
        assert s[1..][i..i + |p|] == s[i + 1..i + 1 + |p|];
        assert OccursAt(s, p, i + 1);
      } else {
        forall i | 0 < i && i + |p| <= |s| ensures !OccursAt(s, p, i) {
          assert s[1..][i - 1..i - 1 + |p|] == s[i..i + |p|];
          assert !OccursAt(s[1..], p, i - 1);
        }
      }
    }
  }

  /** A character of `p` missing from `s` rules out `p in s`. */
  lemma ContainsChar(s: string, p: string, c: char)
    requires c in p && c !in s
    ensures !Contains(s, p)
  {
    ContainsIff(s, p);
    var k :| 0 <= k < |p| && p[k] == c;
    forall i | 0 <= i && i + |p| <= |s| ensures !OccursAt(s, p, i) {
      assert s[i..i + |p|][k] == s[i + k] != c;
    }
  }

  /** A substring is no longer than the string. */
  lemma ContainsLength(s: string, p: string)
    requires |p| > |s|
    ensures !Contains(s, p)
  {
    ContainsIff(s, p);
  }

  /** The index of the last occurrence of `p` in `s` (Python's `s.rfind(p)`, `None` for -1). */
  function LastIndexOf(s: string, p: string): (r: Option<nat>)
    ensures r.Some? ==> OccursAt(s, p, r.value) && forall j :: r.value < j ==> !OccursAt(s, p, j)
    ensures r.None? ==> forall j :: !OccursAt(s, p, j)
  {
    LastFrom(s, p, |s| - |p|)
  }

  function LastFrom(s: string, p: string, k: int): (r: Option<nat>)
    requires k + |p| <= |s|
    ensures r.Some? ==> OccursAt(s, p, r.value) && r.value <= k && forall j :: r.value < j <= k ==> !OccursAt(s, p, j)
    ensures r.None? ==> forall j :: j <= k ==> !OccursAt(s, p, j)
    decreases k + 1
  {
    if k < 0 then None
    else if s[k..k + |p|] == p then Some(k)
    else LastFrom(s, p, k - 1)
  }

  lemma ContainsLastIndexOf(s: string, p: string)
    ensures Contains(s, p) <==> LastIndexOf(s, p).Some?
  {
    ContainsIff(s, p);
  }

  /** Number of leading whitespace characters. */
  function LeadingSpaces(s: string): (n: nat)
    ensures n <= |s|
    ensures forall i :: 0 <= i < n ==> IsSpace(s[i])
    ensures n < |s| ==> !IsSpace(s[n])
  {
    if |s| > 0 && IsSpace(s[0]) then 1 + LeadingSpaces(s[1..]) else 0
  }

  /** Number of trailing whitespace characters. */
  function TrailingSpaces(s: string): (n: nat)
    ensures n <= |s|
    ensures forall i :: |s| - n <= i < |s| ==> IsSpace(s[i])
    ensures n < |s| ==> !IsSpace(s[|s| - 1 - n])
  {
    if |s| > 0 && IsSpace(s[|s| - 1]) then 1 + TrailingSpaces(s[..|s| - 1]) else 0
  }

  /** `s.strip()` */
  function Strip(s: string): string {
    var t := s[LeadingSpaces(s)..];
    t[..|t| - TrailingSpaces(t)]
  }

  /** A string is its own strip exactly when it starts and ends with a non-space. */
  lemma StripIdentity(s: string)
    ensures Strip(s) == s <==> (s == [] || (!IsSpace(s[0]) && !IsSpace(s[|s| - 1])))
  {
    var a := LeadingSpaces(s);
    var t := s[a..];
    var b := TrailingSpaces(t);
    assert |Strip(s)| == |s| - a - b;
    if s != [] && !IsSpace(s[0]) && !IsSpace(s[|s| - 1]) {
      assert a == 0;
      assert t == s;
      assert b == 0;
    }
    if s != [] && IsSpace(s[|s| - 1]) && a == 0 {
      assert t == s;
      assert b > 0;
    }
  }

  /** `strip()` removes only whitespace, from both ends, and leaves no whitespace at either end. */
  lemma StripShape(s: string)
    ensures var r := Strip(s);
      && (r == [] || (!IsSpace(r[0]) && !IsSpace(r[|r| - 1])))
      && (exists i, j :: 0 <= i <= j <= |s| && r == s[i..j]
           && (forall k :: 0 <= k < i ==> IsSpace(s[k]))
           && (forall k :: j <= k < |s| ==> IsSpace(s[k])))
  {
    var a := LeadingSpaces(s);
    var t := s[a..];
    var b := TrailingSpaces(t);
    var r := t[..|t| - b];
    assert r == s[a..|s| - b];
    if r != [] {
      assert r[0] == t[0];
      assert r[|r| - 1] == t[|t| - 1 - b];
    }
    forall k | |s| - b <= k < |s| ensures IsSpace(s[k]) {
      assert s[k] == t[k - a];
    }
  }

  /** A string ending in a non-space loses only leading whitespace, and none past a non-space at `k`. */
  lemma StripNonSpaceEnd(s: string, k: int)
    requires 0 <= k < |s| && !IsSpace(s[k]) && !IsSpace(s[|s| - 1])
    ensures LeadingSpaces(s) <= k && Strip(s) == s[LeadingSpaces(s)..]
  {
    var l := LeadingSpaces(s);
    assert l <= k;
    var t := s[l..];
    assert t[|t| - 1] == s[|s| - 1];
    assert TrailingSpaces(t) == 0;
    assert t[..|t|] == t;
  }

  /** The same, with the text split around the non-space at `k`. */
  lemma StripAround(s: string, k: int)
    requires 0 <= k < |s| && !IsSpace(s[k]) && !IsSpace(s[|s| - 1])
    ensures var l := LeadingSpaces(s); l <= k && Strip(s) == s[l..k] + [s[k]] + s[k + 1..]
  {
    StripNonSpaceEnd(s, k);
    SliceAround(s, LeadingSpaces(s), k);
  }

  lemma SliceAround(s: string, l: int, k: int)
    requires 0 <= l <= k < |s|
    ensures s[l..] == s[l..k] + [s[k]] + s[k + 1..]
  {
  }

  lemma StripIdempotent(s: string)
    ensures Strip(Strip(s)) == Strip(s)
  {
    StripShape(s);
    StripIdentity(Strip(s));
  }

  /** Number of trailing characters equal to `c`. */
  function TrailingRun(s: string, c: char): (n: nat)
    ensures n <= |s|
    ensures forall i :: |s| - n <= i < |s| ==> s[i] == c
    ensures n < |s| ==> s[|s| - 1 - n] != c
  {
    if |s| > 0 && s[|s| - 1] == c then 1 + TrailingRun(s[..|s| - 1], c) else 0
  }

  /** `s.rstrip(c)` for a one-character argument: removes every trailing `c`. */
  function RStripChar(s: string, c: char): (r: string)
    ensures r == [] || r[|r| - 1] != c
    ensures StartsWith(s, r) && forall i :: |r| <= i < |s| ==> s[i] == c
  {
    s[..|s| - TrailingRun(s, c)]
  }

  /** `s.replace(c, "")` */
  function RemoveChar(s: string, c: char): (r: string)
    ensures c !in r
    ensures forall x :: x != c ==> (x in r <==> x in s)
    ensures c !in s ==> r == s
  {
    if s == [] then []
    else if s[0] == c then RemoveChar(s[1..], c)
    else [s[0]] + RemoveChar(s[1..], c)
  }

  /** `sep.join(parts)` */
  function Join(sep: string, parts: seq<string>): string
    decreases |parts|
  {
    if |parts| == 0 then "" else if |parts| == 1 then parts[0] else parts[0] + sep + Join(sep, parts[1..])
  }

  /** `s.split(c)` for a one-character separator: never empty; `""` splits into `[""]`. */
  function Split(s: string, c: char): (parts: seq<string>)
    ensures |parts| >= 1
    decreases |s|
  {
    if |s| == 0 then [""]
    else
      var rest := Split(s[1..], c);
      if s[0] == c then [""] + rest else [[s[0]] + rest[0]] + rest[1..]
  }

  /** No piece of a split contains the separator. */
  lemma {:induction false} SplitPiecesLackSeparator(s: string, c: char)
    ensures forall i :: 0 <= i < |Split(s, c)| ==> c !in Split(s, c)[i]
    decreases |s|
  {
    if |s| > 0 {
      SplitPiecesLackSeparator(s[1..], c);
    }
  }

  /** Joining the pieces with the separator gives the string back. */
  lemma {:induction false} SplitJoin(s: string, c: char)
    ensures Join([c], Split(s, c)) == s
    decreases |s|
  {
    if |s| > 0 {
      var rest := Split(s[1..], c);
      SplitJoin(s[1..], c);
      if s[0] == c {
        assert Split(s, c) == [""] + rest;
        assert ([""] + rest)[1..] == rest;
      } else {
        var p := [[s[0]] + rest[0]] + rest[1..];
        assert Split(s, c) == p;
        if |rest| == 1 {
          assert Join([c], p) == [s[0]] + rest[0];
        } else {
          assert p[1..] == rest[1..];
          assert Join([c], rest) == rest[0] + [c] + Join([c], rest[1..]);
          assert Join([c], p) == [s[0]] + rest[0] + [c] + Join([c], rest[1..]);
        }
      }
    }
  }

  /** A string without the separator splits into itself. */
  lemma {:induction false} SplitWithoutSeparator(s: string, c: char)
    requires c !in s
    ensures Split(s, c) == [s]
    decreases |s|
  {
    if |s| > 0 {
      SplitWithoutSeparator(s[1..], c);
      assert [s[0]] + s[1..] == s;
    }
  }

  /** A separator-free prefix becomes the first piece. */
  lemma {:induction false} SplitAfterPrefix(a: string, b: string, c: char)
    requires c !in a
    ensures Split(a + [c] + b, c) == [a] + Split(b, c)
    decreases |a|
  {
    if |a| == 0 {
      assert a + [c] + b == [c] + b;
      assert ([c] + b)[1..] == b;
    } else {
      var s := a + [c] + b;
      assert s[1..] == a[1..] + [c] + b;
      SplitAfterPrefix(a[1..], b, c);
      assert [a[0]] + a[1..] == a;
    }
  }

  /** The last piece is the text after the last separator. */
  lemma {:induction false} SplitLastPiece(a: string, b: string, c: char)
    requires c !in b
    ensures var p := Split(a + [c] + b, c); |p| >= 2 && p[|p| - 1] == b
    decreases |a|
  {
    if |a| == 0 {
      assert a + [c] + b == [c] + b;
      assert ([c] + b)[1..] == b;
      SplitWithoutSeparator(b, c);
    } else {
      var s := a + [c] + b;
      assert s[1..] == a[1..] + [c] + b;
      SplitLastPiece(a[1..], b, c);
      var rest := Split(s[1..], c);
      if s[0] == c {
        assert Split(s, c) == [""] + rest;
      } else {
        assert Split(s, c) == [[s[0]] + rest[0]] + rest[1..];
      }
    }
  }

  /** Length of the longest prefix without whitespace. */
  function TokenLength(s: string): (n: nat)
    ensures n <= |s|
    ensures forall i :: 0 <= i < n ==> !IsSpace(s[i])
    ensures n < |s| ==> IsSpace(s[n])
  {
    if |s| > 0 && !IsSpace(s[0]) then 1 + TokenLength(s[1..]) else 0
  }

  /** `s.split()`: the maximal runs of non-whitespace characters. */
  function Words(s: string): (ws: seq<string>)
    ensures forall i :: 0 <= i < |ws| ==> ws[i] != [] && forall k :: 0 <= k < |ws[i]| ==> !IsSpace(ws[i][k])
    decreases |s|
  {
    if |s| == 0 then []
    else if IsSpace(s[0]) then Words(s[1..])
    else
      var n := TokenLength(s);
      [s[..n]] + Words(s[n..])
  }

  /** The words of each text in turn. */
  function WordsOfEach(xs: seq<string>): seq<string> {
    if xs == [] then [] else Words(xs[0]) + WordsOfEach(xs[1..])
  }

  /** A word running into the end of `a` ends before a space that follows. */
  lemma {:induction false} TokenLengthBeforeSpace(a: string, rest: string)
    requires rest != [] && IsSpace(rest[0])
    ensures TokenLength(a + rest) == TokenLength(a)
    decreases |a|
  {
    if a == [] {
      assert a + rest == rest;
    } else if !IsSpace(a[0]) {
      assert (a + rest)[1..] == a[1..] + rest;
      TokenLengthBeforeSpace(a[1..], rest);
    }
  }

  /** Splitting `a + " " + b` on whitespace splits each side on its own. */
  lemma {:induction false} WordsAroundSpace(a: string, b: string)
    ensures Words(a + " " + b) == Words(a) + Words(b)
    decreases |a|
  {
    var s := a + " " + b;
    if a == [] {
      assert s == " " + b;
      assert s[1..] == b;
    } else if IsSpace(a[0]) {
      assert s[1..] == a[1..] + " " + b;
      WordsAroundSpace(a[1..], b);
      assert Words(s) == Words(s[1..]);
    } else {
      var n := TokenLength(a);
      TokenLengthBeforeSpace(a, " " + b);
      assert s == a + (" " + b);
      assert s[..n] == a[..n];
      assert s[n..] == a[n..] + " " + b;
      WordsAroundSpace(a[n..], b);
      assert Words(s) == [s[..n]] + Words(s[n..]);
      assert Words(a) == [a[..n]] + Words(a[n..]);
    }
  }

  /** Joining the texts with spaces and splitting gives every text's words, in order, none fused across texts. */
  lemma {:induction false} WordsOfJoin(xs: seq<string>)
    ensures Words(Join(" ", xs)) == WordsOfEach(xs)
    decreases |xs|
  {
    if |xs| == 1 {
      assert xs[1..] == [];
    } else if |xs| > 1 {
      WordsOfJoin(xs[1..]);
      WordsAroundSpace(xs[0], Join(" ", xs[1..]));
    }
  }

  /** `' '.join(s.split())`: whitespace runs collapsed to one space, ends trimmed. */
  function Collapse(s: string): string {
    Join(" ", Words(s))
  }

  /**
   * A string whose only whitespace is single spaces strictly between non-space
   * characters; these are exactly the fixed points of `Collapse`.
   */
  predicate SingleSpaced(s: string) {
    forall i :: 0 <= i < |s| && IsSpace(s[i]) ==> s[i] == ' ' && 0 < i < |s| - 1 && !IsSpace(s[i + 1])
  }

  lemma {:induction false} CollapseSingleSpaced(s: string)
    requires SingleSpaced(s)
    ensures Collapse(s) == s
    decreases |s|
  {
    if |s| > 0 {
      assert !IsSpace(s[0]);
      var n := TokenLength(s);
      if n == |s| {
        assert s[n..] == [];
        assert Words(s) == [s[..n]];
        assert s[..n] == s;
      } else {
        assert s[n] == ' ' && !IsSpace(s[n + 1]);
        var rest := s[n + 1..];
        assert SingleSpaced(rest) by {
          forall i | 0 <= i < |rest| && IsSpace(rest[i])
            ensures rest[i] == ' ' && 0 < i < |rest| - 1 && !IsSpace(rest[i + 1])
          {
            assert rest[i] == s[n + 1 + i];
          }
        }
        CollapseSingleSpaced(rest);
        assert s[n..][1..] == rest;
        assert Words(s[n..]) == Words(rest);
        assert rest != [];
        assert Words(rest) != [] by {
          assert !IsSpace(rest[0]);
          assert Words(rest)[0] == rest[..TokenLength(rest)];
        }
        assert Words(s) == [s[..n]] + Words(rest);
        assert Join(" ", Words(s)) == s[..n] + " " + Join(" ", Words(rest));
        assert s == s[..n] + " " + rest;
      }
    }
  }

  lemma {:induction false} JoinWordsSingleSpaced(ws: seq<string>)
    requires forall i :: 0 <= i < |ws| ==> ws[i] != [] && forall k :: 0 <= k < |ws[i]| ==> !IsSpace(ws[i][k])
    ensures SingleSpaced(Join(" ", ws))
    ensures |ws| > 0 ==> StartsWith(Join(" ", ws), ws[0])
    decreases |ws|
  {
    if |ws| >= 2 {
      var w := ws[0];
      var j := Join(" ", ws[1..]);
      JoinWordsSingleSpaced(ws[1..]);
      var t := w + " " + j;
      assert Join(" ", ws) == t;
      assert t[..|w|] == w;
      forall i | 0 <= i < |t| && IsSpace(t[i])
        ensures t[i] == ' ' && 0 < i < |t| - 1 && !IsSpace(t[i + 1])
      {
        if i > |w| {
          assert t[i] == j[i - |w| - 1];
          assert t[i + 1] == j[i - |w|];
        } else if i == |w| {
          assert t[i + 1] == j[0] == ws[1][0];
        }
      }
    }
  }

  /** Normalising whitespace twice changes nothing more. */
  lemma CollapseIdempotent(s: string)
    ensures Collapse(Collapse(s)) == Collapse(s)
  {
    JoinWordsSingleSpaced(Words(s));
    CollapseSingleSpaced(Collapse(s));
  }
}
