/**
 * Counting: `collections.Counter` and pandas `value_counts`.
 * A tally lists each distinct key once, in order of first appearance, with its
 * number of occurrences; `SortByCount` is a stable sort by descending count
 * (Python's `sorted(..., reverse=True)` on counts). `SumOverCovering` sums
 * counts over keys in any other order, such as the sorted keys of `groupby`.
 */
module Tally {

  /** Number of occurrences of `k` in `xs`. */
  function Count(xs: seq<string>, k: string): nat {
    if xs == [] then 0 else Count(xs[..|xs| - 1], k) + (if xs[|xs| - 1] == k then 1 else 0)
  }

  lemma {:induction false} CountPositive(xs: seq<string>, k: string)
    ensures Count(xs, k) > 0 <==> k in xs
  {
    if xs != [] {
      CountPositive(xs[..|xs| - 1], k);
      assert xs == xs[..|xs| - 1] + [xs[|xs| - 1]];
    }
  }

  /** Occurrences in a concatenation add up. */
  lemma {:induction false} CountConcat(a: seq<string>, b: seq<string>, k: string)
    ensures Count(a + b, k) == Count(a, k) + Count(b, k)
    decreases |b|
  {
    if b == [] {
      assert a + b == a;
    } else {
      assert (a + b)[..|a + b| - 1] == a + b[..|b| - 1];
      CountConcat(a, b[..|b| - 1], k);
    }
  }

  lemma CountAppend(xs: seq<string>, x: string, k: string)
    ensures Count(xs + [x], k) == Count(xs, k) + (if x == k then 1 else 0)
  {
    assert (xs + [x])[..|xs|] == xs;
  }

  predicate NoDuplicates(xs: seq<string>) {
    forall i, j :: 0 <= i < j < |xs| ==> xs[i] != xs[j]
  }

  /** The distinct elements of `xs`, in order of first appearance. */
  function Distinct(xs: seq<string>): (d: seq<string>)
    ensures NoDuplicates(d)
    ensures forall k :: k in d <==> k in xs
  {
    if xs == [] then []
    else
      var d := Distinct(xs[..|xs| - 1]);
      var x := xs[|xs| - 1];
      assert xs == xs[..|xs| - 1] + [x];
      if x in d then d else d + [x]
  }

  /** Each distinct key with its number of occurrences, in order of first appearance. */
  function Tally(xs: seq<string>): (t: seq<(string, nat)>)
    ensures |t| == |Distinct(xs)|
    ensures forall i :: 0 <= i < |t| ==> t[i] == (Distinct(xs)[i], Count(xs, Distinct(xs)[i]))
  {
    var d := Distinct(xs);
    seq(|d|, i requires 0 <= i < |d| => (d[i], Count(xs, d[i])))
  }

  function Keys(t: seq<(string, nat)>): (ks: seq<string>)
    ensures |ks| == |t| && forall i :: 0 <= i < |t| ==> ks[i] == t[i].0
  {
    if t == [] then [] else [t[0].0] + Keys(t[1..])
  }

  function SumCounts(t: seq<(string, nat)>): nat {
    if t == [] then 0 else t[0].1 + SumCounts(t[1..])
  }

  /** Sum, over a list of distinct keys, of their counts in `xs`. */
  function CountsOver(xs: seq<string>, keys: seq<string>): nat {
    if keys == [] then 0 else Count(xs, keys[0]) + CountsOver(xs, keys[1..])
  }

  lemma {:induction false} CountsOverAppend(xs: seq<string>, x: string, keys: seq<string>)
    requires NoDuplicates(keys)
    ensures CountsOver(xs + [x], keys) == CountsOver(xs, keys) + (if x in keys then 1 else 0)
  {
    if keys != [] {
      CountAppend(xs, x, keys[0]);
      CountsOverAppend(xs, x, keys[1..]);
      assert x in keys <==> x == keys[0] || x in keys[1..];
    }
  }

  lemma {:induction false} CountsOverExtend(xs: seq<string>, keys: seq<string>, x: string)
    requires x !in xs
    ensures CountsOver(xs, keys + [x]) == CountsOver(xs, keys)
  {
    CountPositive(xs, x);
    if keys != [] {
      assert (keys + [x])[1..] == keys[1..] + [x];
      CountsOverExtend(xs, keys[1..], x);
    }
  }

  lemma {:induction false} CountsOverDistinct(xs: seq<string>)
    ensures CountsOver(xs, Distinct(xs)) == |xs|
  {
    if xs != [] {
      var init := xs[..|xs| - 1];
      var x := xs[|xs| - 1];
      var d := Distinct(init);
      assert xs == init + [x];
      CountsOverDistinct(init);
      CountsOverAppend(init, x, d);
      if x !in d {
        CountsOverExtend(init, d, x);
        CountsOverAppend(init, x, d + [x]);
        assert x in d + [x];
      }
    }
  }

  lemma {:induction false} SumCountsIsCountsOver(xs: seq<string>, keys: seq<string>)
    ensures SumCounts(seq(|keys|, i requires 0 <= i < |keys| => (keys[i], Count(xs, keys[i])))) == CountsOver(xs, keys)
  {
    var t := seq(|keys|, i requires 0 <= i < |keys| => (keys[i], Count(xs, keys[i])));
    if keys != [] {
      SumCountsIsCountsOver(xs, keys[1..]);
      assert t[1..] == seq(|keys[1..]|, i requires 0 <= i < |keys[1..]| => (keys[1..][i], Count(xs, keys[1..][i])));
    }
  }

  /** The counts of a tally add up to the number of elements counted. */
  lemma TallySum(xs: seq<string>)
    ensures SumCounts(Tally(xs)) == |xs|
  {
    SumCountsIsCountsOver(xs, Distinct(xs));
    CountsOverDistinct(xs);
  }

  lemma {:induction false} CountsOverNothing(keys: seq<string>)
    ensures CountsOver([], keys) == 0
  {
    if keys != [] {
      CountsOverNothing(keys[1..]);
    }
  }

  /** Over keys that name every element of `xs` once, each element is counted exactly once. */
  lemma {:induction false} CountsOverCovering(xs: seq<string>, keys: seq<string>)
    requires NoDuplicates(keys) && forall x :: x in xs ==> x in keys
    ensures CountsOver(xs, keys) == |xs|
  {
    if xs == [] {
      CountsOverNothing(keys);
    } else {
      var init := xs[..|xs| - 1];
      var x := xs[|xs| - 1];
      assert xs == init + [x];
      assert forall y :: y in init ==> y in xs;
      CountsOverCovering(init, keys);
      CountsOverAppend(init, x, keys);
    }
  }

  /** The per-key counts over such keys, in whatever order they come, add up to the number of elements. */
  lemma SumOverCovering(xs: seq<string>, keys: seq<string>)
    requires NoDuplicates(keys) && forall x :: x in xs ==> x in keys
    ensures SumCounts(seq(|keys|, i requires 0 <= i < |keys| => (keys[i], Count(xs, keys[i])))) == |xs|
  {
    SumCountsIsCountsOver(xs, keys);
    CountsOverCovering(xs, keys);
  }

  /** Every element of `xs` is a key of its tally, each key once. */
  lemma TallyKeys(xs: seq<string>)
    ensures Keys(Tally(xs)) == Distinct(xs)
    ensures forall k :: k in Keys(Tally(xs)) <==> k in xs
    ensures NoDuplicates(Keys(Tally(xs)))
  {
    assert Keys(Tally(xs)) == Distinct(xs);
  }

  predicate NonIncreasing(t: seq<(string, nat)>) {
    forall i, j :: 0 <= i < j < |t| ==> t[i].1 >= t[j].1
  }

  /** Insert `p` before the first entry whose count is at most `p`'s. */
  function Insert(p: (string, nat), s: seq<(string, nat)>): (r: seq<(string, nat)>)
    ensures |r| == |s| + 1
    ensures multiset(r) == multiset(s) + multiset{p}
  {
    if s == [] || s[0].1 <= p.1 then [p] + s
    else
      assert s == [s[0]] + s[1..];
      [s[0]] + Insert(p, s[1..])
  }

  lemma {:induction false} InsertSorted(p: (string, nat), s: seq<(string, nat)>)
    requires NonIncreasing(s)
    ensures NonIncreasing(Insert(p, s))
  {
    if !(s == [] || s[0].1 <= p.1) {
      InsertSorted(p, s[1..]);
      var r := Insert(p, s[1..]);
      forall i | 0 <= i < |r| ensures r[i].1 <= s[0].1 {
        assert r[i] in multiset(r);
        if r[i] != p {
          assert r[i] in multiset(s[1..]);
          var j :| 0 <= j < |s[1..]| && s[1..][j] == r[i];
          assert s[j + 1] == r[i];
        }
      }
    }
  }

  lemma NoDuplicatesCons(x: string, ks: seq<string>)
    ensures NoDuplicates([x] + ks) <==> x !in ks && NoDuplicates(ks)
  {
    var l := [x] + ks;
    assert forall i :: 0 <= i < |ks| ==> l[i + 1] == ks[i];
    if NoDuplicates(l) {
      forall i, j | 0 <= i < j < |ks| ensures ks[i] != ks[j] {
        assert l[i + 1] != l[j + 1];
      }
      forall j | 0 <= j < |ks| ensures ks[j] != x {
        assert l[0] != l[j + 1];
      }
    }
    if x !in ks && NoDuplicates(ks) {
      forall i, j | 0 <= i < j < |l| ensures l[i] != l[j] {
        if i > 0 {
          assert l[i] == ks[i - 1] && l[j] == ks[j - 1];
        } else {
          assert l[j] == ks[j - 1];
        }
      }
    }
  }

  lemma {:induction false} InsertKeySet(p: (string, nat), s: seq<(string, nat)>)
    ensures forall k :: k in Keys(Insert(p, s)) <==> k == p.0 || k in Keys(s)
  {
    if s == [] || s[0].1 <= p.1 {
      assert ([p] + s)[1..] == s;
    } else {
      InsertKeySet(p, s[1..]);
      var r := Insert(p, s);
      assert r[1..] == Insert(p, s[1..]);
      assert Keys(r) == [s[0].0] + Keys(Insert(p, s[1..]));
      assert Keys(s) == [s[0].0] + Keys(s[1..]);
    }
  }

  lemma {:induction false} InsertNoDuplicates(p: (string, nat), s: seq<(string, nat)>)
    requires NoDuplicates(Keys(s)) && p.0 !in Keys(s)
    ensures NoDuplicates(Keys(Insert(p, s)))
  {
    if s == [] || s[0].1 <= p.1 {
      assert ([p] + s)[1..] == s;
      NoDuplicatesCons(p.0, Keys(s));
    } else {
      assert Keys(s) == [s[0].0] + Keys(s[1..]);
      NoDuplicatesCons(s[0].0, Keys(s[1..]));
      InsertNoDuplicates(p, s[1..]);
      InsertKeySet(p, s[1..]);
      var r := Insert(p, s);
      assert r[1..] == Insert(p, s[1..]);
      assert Keys(r) == [s[0].0] + Keys(Insert(p, s[1..]));
      NoDuplicatesCons(s[0].0, Keys(Insert(p, s[1..])));
    }
  }

  /** A stable sort by descending count. */
  function SortByCount(t: seq<(string, nat)>): (r: seq<(string, nat)>)
    ensures |r| == |t|
    ensures multiset(r) == multiset(t)
  {
    if t == [] then []
    else
      assert t == [t[0]] + t[1..];
      Insert(t[0], SortByCount(t[1..]))
  }

  lemma {:induction false} SortByCountSorted(t: seq<(string, nat)>)
    ensures NonIncreasing(SortByCount(t))
    ensures forall k :: k in Keys(SortByCount(t)) <==> k in Keys(t)
    ensures NoDuplicates(Keys(t)) ==> NoDuplicates(Keys(SortByCount(t)))
  {
    if t != [] {
      SortByCountSorted(t[1..]);
      InsertSorted(t[0], SortByCount(t[1..]));
      InsertKeySet(t[0], SortByCount(t[1..]));
      assert Keys(t) == [t[0].0] + Keys(t[1..]);
      NoDuplicatesCons(t[0].0, Keys(t[1..]));
      if NoDuplicates(Keys(t)) {
        InsertNoDuplicates(t[0], SortByCount(t[1..]));
      }
    }
  }

  /** The entries having count `v`, in order. */
  function WithCount(t: seq<(string, nat)>, v: nat): seq<(string, nat)> {
    if t == [] then [] else (if t[0].1 == v then [t[0]] else []) + WithCount(t[1..], v)
  }

  lemma WithCountCons(x: (string, nat), t: seq<(string, nat)>, v: nat)
    ensures WithCount([x] + t, v) == (if x.1 == v then [x] else []) + WithCount(t, v)
  {
    assert ([x] + t)[0] == x;
    assert ([x] + t)[1..] == t;
  }

  lemma {:induction false} InsertWithCount(p: (string, nat), s: seq<(string, nat)>, v: nat)
    ensures WithCount(Insert(p, s), v) == (if p.1 == v then [p] else []) + WithCount(s, v)
  {
    if s == [] || s[0].1 <= p.1 {
      WithCountCons(p, s, v);
    } else {
      InsertWithCount(p, s[1..], v);
      assert Insert(p, s) == [s[0]] + Insert(p, s[1..]);
      WithCountCons(s[0], Insert(p, s[1..]), v);
      assert s == [s[0]] + s[1..];
      WithCountCons(s[0], s[1..], v);
    }
  }

  /** Stability: entries with equal counts keep their relative order. */
  lemma {:induction false} SortByCountStable(t: seq<(string, nat)>, v: nat)
    ensures WithCount(SortByCount(t), v) == WithCount(t, v)
  {
    if t != [] {
      SortByCountStable(t[1..], v);
      InsertWithCount(t[0], SortByCount(t[1..]), v);
    }
  }

  lemma {:induction false} InsertSum(p: (string, nat), s: seq<(string, nat)>)
    ensures SumCounts(Insert(p, s)) == p.1 + SumCounts(s)
  {
    if s == [] || s[0].1 <= p.1 {
      assert ([p] + s)[1..] == s;
    } else {
      InsertSum(p, s[1..]);
      assert Insert(p, s)[1..] == Insert(p, s[1..]);
    }
  }

  lemma {:induction false} SortByCountSum(t: seq<(string, nat)>)
    ensures SumCounts(SortByCount(t)) == SumCounts(t)
  {
    if t != [] {
      SortByCountSum(t[1..]);
      InsertSum(t[0], SortByCount(t[1..]));
    }
  }

  /** Every entry of a reordered tally still pairs a key of `xs` with its count. */
  lemma TallyPermutationEntries(xs: seq<string>, r: seq<(string, nat)>)
    requires multiset(r) == multiset(Tally(xs))
    ensures forall i :: 0 <= i < |r| ==> r[i].1 == Count(xs, r[i].0) && r[i].1 > 0
  {
    var t := Tally(xs);
    forall i | 0 <= i < |r| ensures r[i].1 == Count(xs, r[i].0) && r[i].1 > 0 {
      assert r[i] in multiset(t);
      var j :| 0 <= j < |t| && t[j] == r[i];
      CountPositive(xs, t[j].0);
    }
  }

  /** pandas `value_counts()`: the tally ordered by descending count. */
  function ValueCounts(xs: seq<string>): (r: seq<(string, nat)>)
    ensures NonIncreasing(r)
    ensures NoDuplicates(Keys(r))
    ensures forall k :: k in Keys(r) <==> k in xs
    ensures forall i :: 0 <= i < |r| ==> r[i].1 == Count(xs, r[i].0) && r[i].1 > 0
    ensures SumCounts(r) == |xs|
  {
    var t := Tally(xs);
    var r := SortByCount(t);
    SortByCountSorted(t);
    TallyKeys(xs);
    TallySum(xs);
    SortByCountSum(t);
    TallyPermutationEntries(xs, r);
    r
  }

  /** A prefix of a sorted tally without repeated keys is one too, entry for entry the same. */
  lemma PrefixOfSorted(r: seq<(string, nat)>, n: int)
    requires NoDuplicates(Keys(r)) && NonIncreasing(r)
    ensures NoDuplicates(Keys(PrefixSlice(r, n))) && NonIncreasing(PrefixSlice(r, n))
    ensures forall k :: k in Keys(PrefixSlice(r, n)) ==> k in Keys(r)
  {
    var p := PrefixSlice(r, n);
    assert forall i :: 0 <= i < |p| ==> Keys(p)[i] == Keys(r)[i];
  }

  /** In a tally sorted by count, a key beyond the first `n` entries counts at most what each of them does. */
  lemma PrefixDominates(r: seq<(string, nat)>, n: nat, w: string, i: int) returns (j: nat)
    requires NonIncreasing(r) && n <= |r| && 0 <= i < n
    requires w in Keys(r) && w !in Keys(r[..n])
    ensures n <= j < |r| && r[j].0 == w && r[i].1 >= r[j].1
  {
    var k :| 0 <= k < |r| && Keys(r)[k] == w;
    assert forall q :: 0 <= q < n ==> Keys(r[..n])[q] == Keys(r)[q];
    j := k;
  }

  /** Python's `s[:n]`, where a negative `n` counts from the end. */
  function PrefixSlice<T>(s: seq<T>, n: int): (r: seq<T>)
    ensures n >= 0 ==> |r| == if n < |s| then n else |s|
    ensures n < 0 ==> |r| == if |s| + n > 0 then |s| + n else 0
    ensures r == s[..|r|]
  {
    if n >= 0 then (if n < |s| then s[..n] else s)
    else (if |s| + n > 0 then s[..|s| + n] else [])
  }
}
