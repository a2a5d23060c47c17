/**
 * The list operations the stores and screens use (`filter`, `find`,
 * `reduce`), with the facts the rest of the model needs about them.
 */
module Seqs {
  import opened Wrappers

  /** The elements of `s` that satisfy `keep`, in their original order. */
  function Filter<T>(s: seq<T>, keep: T -> bool): (r: seq<T>)
    ensures |r| <= |s|
    ensures forall k | 0 <= k < |r| :: r[k] in s && keep(r[k])
    ensures forall k | 0 <= k < |s| :: keep(s[k]) ==> s[k] in r
  {
    if s == [] then [] else (if keep(s[0]) then [s[0]] else []) + Filter(s[1..], keep)
  }

  /** Filtering a concatenation filters each part. */
  lemma {:induction false} FilterAppend<T>(a: seq<T>, b: seq<T>, keep: T -> bool)
    ensures Filter(a + b, keep) == Filter(a, keep) + Filter(b, keep)
  {
    if a != [] {
      assert (a + b)[1..] == a[1..] + b;
      FilterAppend(a[1..], b, keep);
    } else {
      assert a + b == b;
    }
  }

  /** A filter that keeps every element returns the sequence unchanged. */
  lemma {:induction false} FilterKeepsAll<T>(s: seq<T>, keep: T -> bool)
    requires forall x :: x in s ==> keep(x)
    ensures Filter(s, keep) == s
  {
    if s != [] {
      FilterKeepsAll(s[1..], keep);
    }
  }

  /** A filter that rejects one element and keeps all others removes exactly that element. */
  lemma FilterDropsOne<T>(a: seq<T>, x: T, b: seq<T>, keep: T -> bool)
    requires forall y :: y in a ==> keep(y)
    requires forall y :: y in b ==> keep(y)
    requires !keep(x)
    ensures Filter(a + ([x] + b), keep) == a + b
  {
    FilterRejectsOne(x, b, keep);
    FilterAppend(a, [x] + b, keep);
    FilterKeepsAll(a, keep);
    FilterKeepsAll(b, keep);
  }

  lemma FilterRejectsOne<T>(x: T, b: seq<T>, keep: T -> bool)
    requires !keep(x)
    ensures Filter([x] + b, keep) == Filter(b, keep)
  {
    assert ([x] + b)[1..] == b;
  }

  /** Two tests that agree on the elements of `s` filter it alike. */
  lemma {:induction false} FilterSameTest<T>(s: seq<T>, p: T -> bool, q: T -> bool)
    requires forall x :: x in s ==> p(x) == q(x)
    ensures Filter(s, p) == Filter(s, q)
  {
    if s != [] {
      FilterSameTest(s[1..], p, q);
    }
  }

  /** Filtering twice is filtering once by both tests. */
  lemma {:induction false} FilterTwice<T>(s: seq<T>, p: T -> bool, q: T -> bool, both: T -> bool)
    requires forall x :: both(x) == (p(x) && q(x))
    ensures Filter(Filter(s, p), q) == Filter(s, both)
  {
    if s != [] {
      FilterTwice(s[1..], p, q, both);
      var fp := Filter(s, p);
      if p(s[0]) {
        assert fp == [s[0]] + Filter(s[1..], p);
        assert fp[0] == s[0] && fp[1..] == Filter(s[1..], p);
        assert Filter(fp, q) == (if q(s[0]) then [s[0]] else []) + Filter(fp[1..], q);
      } else {
        assert fp == Filter(s[1..], p);
      }
    }
  }

  /** The position of the first element that passes `p`, as `find` and `list(...)[0]` take it. */
  function FirstMatch<T>(s: seq<T>, p: T -> bool): (r: Option<nat>)
    ensures r.Some? ==> r.value < |s| && p(s[r.value]) && forall j | 0 <= j < r.value :: !p(s[j])
    ensures r.None? <==> forall j | 0 <= j < |s| :: !p(s[j])
  {
    if s == [] then None
    else if p(s[0]) then Some(0)
    else match FirstMatch(s[1..], p)
      case Some(k) => Some(k + 1)
      case None => None
  }

  /** An element that passes `p` with none passing before it is the first match. */
  lemma FirstMatchAt<T>(s: seq<T>, p: T -> bool, k: nat)
    requires k < |s| && p(s[k]) && forall j | 0 <= j < k :: !p(s[j])
    ensures FirstMatch(s, p) == Some(k)
  {
  }

  /** `s.reduce((sum, x) => sum + f(x), 0)`, added up from the left as `reduce` does. */
  function SumBy<T>(s: seq<T>, f: T -> real): real {
    if s == [] then 0.0 else SumBy(s[..|s| - 1], f) + f(s[|s| - 1])
  }

  /** One more element adds its term to the sum. */
  lemma SumByPush<T>(s: seq<T>, x: T, f: T -> real)
    ensures SumBy(s + [x], f) == SumBy(s, f) + f(x)
  {
    assert (s + [x])[..|s|] == s;
  }

  /** The sum over a concatenation is the sum of the sums. */
  lemma {:induction false} SumByAppend<T>(a: seq<T>, b: seq<T>, f: T -> real)
    ensures SumBy(a + b, f) == SumBy(a, f) + SumBy(b, f)
  {
    if b == [] {
      assert a + b == a;
    } else {
      assert (a + b)[..|a + b| - 1] == a + b[..|b| - 1];
      SumByAppend(a, b[..|b| - 1], f);
    }
  }

  /** Adding up `n` copies of the same value gives `n` times that value. */
  lemma {:induction false} SumByConstant<T>(s: seq<T>, f: T -> real, c: real)
    requires forall k | 0 <= k < |s| :: f(s[k]) == c
    ensures SumBy(s, f) == |s| as real * c
  {
    if s != [] {
      SumByConstant(s[..|s| - 1], f, c);
    }
  }

  /** Two functions that agree on the elements of `s` add up alike. */
  lemma {:induction false} SumBySameTerms<T>(s: seq<T>, f: T -> real, g: T -> real)
    requires forall k | 0 <= k < |s| :: f(s[k]) == g(s[k])
    ensures SumBy(s, f) == SumBy(s, g)
  {
    if s != [] {
      SumBySameTerms(s[..|s| - 1], f, g);
    }
  }

  /** Adding up over a mapped list is adding up the mapped values. */
  lemma {:induction false} SumByOverMap<A, B>(s: seq<A>, t: seq<B>, f: A -> real, g: B -> real)
    requires |s| == |t|
    requires forall k | 0 <= k < |s| :: g(t[k]) == f(s[k])
    ensures SumBy(t, g) == SumBy(s, f)
  {
    if s != [] {
      SumByOverMap(s[..|s| - 1], t[..|t| - 1], f, g);
    }
  }
}
