/** Python's ordering of strings and of key tuples, and the sorted lists of distinct keys that `sorted(set(...))` and `groupby` build. */
module Ordering {

  /** Python's `a < b` on strings: by code point, a proper prefix first. */
  predicate LexLess(a: string, b: string)
    decreases |a|
  {
    if a == [] then b != []
    else b != [] && (a[0] < b[0] || (a[0] == b[0] && LexLess(a[1..], b[1..])))
  }

  lemma {:induction false} LexLessIrreflexive(a: string)
    ensures !LexLess(a, a)
    decreases |a|
  {
    if a != [] {
      LexLessIrreflexive(a[1..]);
    }
  }

  lemma {:induction false} LexLessTransitive(a: string, b: string, c: string)
    requires LexLess(a, b) && LexLess(b, c)
    ensures LexLess(a, c)
    decreases |a|
  {
    if a != [] && a[0] == b[0] && b[0] == c[0] {
      LexLessTransitive(a[1..], b[1..], c[1..]);
    }
  }

  lemma {:induction false} LexLessTotal(a: string, b: string)
    requires a != b
    ensures LexLess(a, b) || LexLess(b, a)
    decreases |a|
  {
    if a != [] && b != [] && a[0] == b[0] {
      assert a == [a[0]] + a[1..] && b == [b[0]] + b[1..];
      LexLessTotal(a[1..], b[1..]);
    }
  }

  /** Strings whose first parts have one length compare by those parts first. */
  lemma {:induction false} LexLessConcat(p: string, s: string, q: string, t: string)
    requires |p| == |q|
    ensures LexLess(p + s, q + t) <==> LexLess(p, q) || (p == q && LexLess(s, t))
    decreases |p|
  {
    if p == [] {
      assert p + s == s && q + t == t;
    } else {
      assert (p + s)[1..] == p[1..] + s && (q + t)[1..] == q[1..] + t;
      assert p == [p[0]] + p[1..] && q == [q[0]] + q[1..];
      LexLessConcat(p[1..], s, q[1..], t);
    }
  }

  /** `less` is a strict total order on `T`, as Python's `<` is on strings and on tuples of strings. */
  ghost predicate StrictTotal<T(!new)>(less: (T, T) -> bool) {
    && (forall a :: !less(a, a))
    && (forall a, b, c :: less(a, b) && less(b, c) ==> less(a, c))
    && (forall a, b :: a != b ==> less(a, b) || less(b, a))
  }

  lemma LexLessStrictTotal()
    ensures StrictTotal(LexLess)
  {
    forall a ensures !LexLess(a, a) {
      LexLessIrreflexive(a);
    }
    forall a, b, c | LexLess(a, b) && LexLess(b, c) ensures LexLess(a, c) {
      LexLessTransitive(a, b, c);
    }
    forall a, b | a != b ensures LexLess(a, b) || LexLess(b, a) {
      LexLessTotal(a, b);
    }
  }

  /** Each element strictly below every later one, as `sorted(set(...))` leaves a list. */
  predicate Ascending<T>(less: (T, T) -> bool, s: seq<T>) {
    forall i, j :: 0 <= i < j < |s| ==> less(s[i], s[j])
  }

  /** An ascending list has no repeated element. */
  lemma AscendingDistinct<T(!new)>(less: (T, T) -> bool, s: seq<T>)
    requires StrictTotal(less) && Ascending(less, s)
    ensures forall i, j :: 0 <= i < j < |s| ==> s[i] != s[j]
  {
    forall i, j | 0 <= i < j < |s| ensures s[i] != s[j] {
      assert !less(s[i], s[i]);
    }
  }

  lemma PrependAscending<T(!new)>(less: (T, T) -> bool, x: T, s: seq<T>)
    requires StrictTotal(less) && Ascending(less, s) && (s != [] ==> less(x, s[0]))
    ensures Ascending(less, [x] + s)
  {
    var t := [x] + s;
    forall i, j | 0 <= i < j < |t| ensures less(t[i], t[j]) {
      if i == 0 && j > 1 {
        assert less(x, s[0]) && less(s[0], s[j - 1]);
      }
    }
  }

  /** `x` put into its place in an ascending list, unless it is there already. */
  function InsertAscending<T(==, !new)>(less: (T, T) -> bool, x: T, s: seq<T>): (r: seq<T>)
    requires StrictTotal(less) && Ascending(less, s)
    ensures Ascending(less, r)
    ensures forall y :: y in r <==> y == x || y in s
    decreases |s|
  {
    if s == [] then [x]
    else if x == s[0] then s
    else if less(x, s[0]) then
      PrependAscending(less, x, s);
      [x] + s
    else
      assert less(s[0], x);
      var rest := InsertAscending(less, x, s[1..]);
      assert s == [s[0]] + s[1..];
      assert rest[0] in rest;
      PrependAscending(less, s[0], rest);
      [s[0]] + rest
  }

  /** The distinct elements of `xs` in ascending order, as `sorted(set(xs))` or the group keys of `groupby`. */
  function SortedDistinct<T(==, !new)>(less: (T, T) -> bool, xs: seq<T>): (r: seq<T>)
    requires StrictTotal(less)
    ensures Ascending(less, r)
    ensures forall y :: y in r <==> y in xs
    decreases |xs|
  {
    if xs == [] then []
    else
      assert xs == [xs[0]] + xs[1..];
      InsertAscending(less, xs[0], SortedDistinct(less, xs[1..]))
  }

  /** The distinct strings of `xs` in Python's order, with no repeats. */
  function SortedStrings(xs: seq<string>): (r: seq<string>)
    ensures Ascending(LexLess, r)
    ensures forall i, j :: 0 <= i < j < |r| ==> r[i] != r[j]
    ensures forall y :: y in r <==> y in xs
  {
    LexLessStrictTotal();
    var r := SortedDistinct(LexLess, xs);
    AscendingDistinct(LexLess, r);
    r
  }
}
