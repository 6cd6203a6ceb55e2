/**
 * Row selection on data frames, with a frame as the sequence of its rows:
 * boolean indexing `df[mask]`, the element-wise `&` of two masks, and the
 * row-wise `apply` of a predicate.
 */
module Frames {

  /** `df[mask]`: the rows whose mask entry is true, in their original order. */
  function Select<T>(xs: seq<T>, mask: seq<bool>): (r: seq<T>)
    requires |mask| == |xs|
    ensures |r| <= |xs|
    decreases |xs|
  {
    if xs == [] then [] else (if mask[0] then [xs[0]] else []) + Select(xs[1..], mask[1..])
  }

  /** `df[col].apply(p)`: the mask of a row predicate. */
  function MaskOf<T>(xs: seq<T>, p: T -> bool): (m: seq<bool>)
    ensures |m| == |xs| && forall i :: 0 <= i < |xs| ==> m[i] == p(xs[i])
  {
    seq(|xs|, i requires 0 <= i < |xs| => p(xs[i]))
  }

  /** `a & b` on two masks of the same frame. */
  function And(a: seq<bool>, b: seq<bool>): (r: seq<bool>)
    requires |a| == |b|
    ensures |r| == |a| && forall i :: 0 <= i < |a| ==> r[i] == (a[i] && b[i])
  {
    seq(|a|, i requires 0 <= i < |a| => a[i] && b[i])
  }

  /** The rows satisfying `p`, in their original order. */
  function Where<T(!new)>(xs: seq<T>, p: T -> bool): (r: seq<T>)
    ensures forall x :: x in r <==> x in xs && p(x)
    decreases |xs|
  {
    if xs == [] then []
    else
      assert forall x :: x in xs <==> x == xs[0] || x in xs[1..];
      (if p(xs[0]) then [xs[0]] else []) + Where(xs[1..], p)
  }

  /** Selecting with a predicate's mask is filtering by the predicate. */
  lemma {:induction false} SelectMask<T(!new)>(xs: seq<T>, p: T -> bool)
    ensures Select(xs, MaskOf(xs, p)) == Where(xs, p)
    decreases |xs|
  {
    if xs != [] {
      assert MaskOf(xs, p)[1..] == MaskOf(xs[1..], p);
      SelectMask(xs[1..], p);
    }
  }

  /** Narrowing a mask by `&` is filtering by both predicates at once. */
  lemma SelectAnd<T(!new)>(xs: seq<T>, p: T -> bool, q: T -> bool)
    ensures Select(xs, And(MaskOf(xs, p), MaskOf(xs, q))) == Where(xs, x => p(x) && q(x))
  {
    assert And(MaskOf(xs, p), MaskOf(xs, q)) == MaskOf(xs, x => p(x) && q(x));
    SelectMask(xs, x => p(x) && q(x));
  }

  /** Filtering twice is filtering once by the conjunction, in the same order. */
  lemma {:induction false} WhereWhere<T(!new)>(xs: seq<T>, p: T -> bool, q: T -> bool)
    ensures Where(Where(xs, p), q) == Where(xs, x => p(x) && q(x))
    decreases |xs|
  {
    if xs != [] {
      WhereWhere(xs[1..], p, q);
      var head := if p(xs[0]) then [xs[0]] else [];
      WhereAppend(head, Where(xs[1..], p), q);
    }
  }

  lemma {:induction false} WhereAppend<T(!new)>(a: seq<T>, b: seq<T>, p: T -> bool)
    ensures Where(a + b, p) == Where(a, p) + Where(b, p)
    decreases |a|
  {
    if a != [] {
      assert (a + b)[1..] == a[1..] + b;
      WhereAppend(a[1..], b, p);
    } else {
      assert a + b == b;
    }
  }

  /** A predicate that holds everywhere keeps every row. */
  lemma {:induction false} WhereAll<T(!new)>(xs: seq<T>, p: T -> bool)
    requires forall x :: x in xs ==> p(x)
    ensures Where(xs, p) == xs
    decreases |xs|
  {
    if xs != [] {
      WhereAll(xs[1..], p);
    }
  }

  /** A predicate no row satisfies keeps nothing. */
  lemma {:induction false} WhereNone<T(!new)>(xs: seq<T>, p: T -> bool)
    requires forall j :: 0 <= j < |xs| ==> !p(xs[j])
    ensures Where(xs, p) == []
    decreases |xs|
  {
    if xs != [] {
      WhereNone(xs[1..], p);
    }
  }

  /** A predicate only the row at `k` satisfies keeps that row alone. */
  lemma {:induction false} WhereOnly<T(!new)>(xs: seq<T>, p: T -> bool, k: nat)
    requires k < |xs| && p(xs[k]) && forall j :: 0 <= j < |xs| && j != k ==> !p(xs[j])
    ensures Where(xs, p) == [xs[k]]
    decreases |xs|
  {
    if k == 0 {
      WhereNone(xs[1..], p);
    } else {
      WhereOnly(xs[1..], p, k - 1);
    }
  }

  /** Filtering on equivalent predicates gives the same rows. */
  lemma {:induction false} WhereSame<T(!new)>(xs: seq<T>, p: T -> bool, q: T -> bool)
    requires forall x :: x in xs ==> p(x) == q(x)
    ensures Where(xs, p) == Where(xs, q)
    decreases |xs|
  {
    if xs != [] {
      WhereSame(xs[1..], p, q);
    }
  }

  /** Filtering the rows `p` keeps by `q` keeps the rows of any predicate meaning both. */
  lemma WhereNarrow<T(!new)>(xs: seq<T>, p: T -> bool, q: T -> bool, pq: T -> bool)
    requires forall x :: pq(x) == (p(x) && q(x))
    ensures Where(Where(xs, p), q) == Where(xs, pq)
  {
    WhereWhere(xs, p, q);
    WhereSame(xs, x => p(x) && q(x), pq);
  }

  /** The conjunction of two row predicates. */
  function Both<T(!new)>(p: T -> bool, q: T -> bool): (r: T -> bool)
    ensures forall x :: r(x) == (p(x) && q(x))
  {
    x => p(x) && q(x)
  }

  /** `mask & df.apply(q)` on the mask of `p` is the mask of both. */
  lemma NarrowMask<T(!new)>(xs: seq<T>, m: seq<bool>, p: T -> bool, q: T -> bool)
    requires m == MaskOf(xs, p)
    ensures And(m, MaskOf(xs, q)) == MaskOf(xs, Both(p, q))
  {
  }

  /** Leaving out the step for a predicate that holds everywhere changes nothing. */
  lemma SkipMask<T(!new)>(xs: seq<T>, m: seq<bool>, p: T -> bool, q: T -> bool)
    requires m == MaskOf(xs, p) && forall x :: q(x)
    ensures m == MaskOf(xs, Both(p, q))
  {
  }
}
