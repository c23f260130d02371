/** Sequence operations behind the data-frame calls the dashboard makes:
    boolean-mask selection (`df[mask]`), column sums and percentages. */
module Seqs {
  import opened Records

  function Not<T>(p: T -> bool): T -> bool {
    x => !p(x)
  }

  function And<T>(p: T -> bool, q: T -> bool): T -> bool {
    x => p(x) && q(x)
  }

  /** The rows of `s` that satisfy `p`, in their original order. */
  function Filter<T>(s: seq<T>, p: T -> bool): (r: seq<T>)
    ensures |r| <= |s|
    ensures forall i :: 0 <= i < |r| ==> p(r[i])
    ensures forall i :: 0 <= i < |s| && p(s[i]) ==> s[i] in r
    ensures forall x :: x in r ==> x in s && p(x)
  {
    if |s| == 0 then []
    else if p(s[0]) then [s[0]] + Filter(s[1..], p)
    else Filter(s[1..], p)
  }

  /** The number of rows of `s` that satisfy `p`. */
  function Count<T>(s: seq<T>, p: T -> bool): nat {
    |Filter(s, p)|
  }

  /** The rows whose key is `k`, in order: the group of `k` in a
      `groupby`, or the rows a join on `k` matches. */
  function Matches<T>(s: seq<T>, key: T -> int, k: int): seq<T> {
    Filter(s, KeyIs(key, k))
  }

  function KeyIs<T>(key: T -> int, k: int): T -> bool {
    x => key(x) == k
  }

  /** No two rows share a key. */
  ghost predicate UniqueKeys<T>(s: seq<T>, key: T -> int) {
    forall i, j :: 0 <= i < j < |s| ==> key(s[i]) != key(s[j])
  }

  /** When keys are unique a key matches at most one row. */
  lemma {:induction false} UniqueKeysMatchAtMostOne<T>(s: seq<T>, key: T -> int, k: int)
    requires UniqueKeys(s, key)
    ensures |Matches(s, key, k)| <= 1
  {
    if |s| > 0 {
      assert UniqueKeys(s[1..], key);
      UniqueKeysMatchAtMostOne(s[1..], key, k);
      if key(s[0]) == k {
        FilterDropsAll(s[1..], KeyIs(key, k));
      }
    }
  }

  /** `a` is obtained from `b` by deleting elements, keeping the order. */
  ghost predicate IsSubsequence<T>(a: seq<T>, b: seq<T>)
    decreases |b|
  {
    if |a| == 0 then true
    else if |b| == 0 then false
    else (a[0] == b[0] && IsSubsequence(a[1..], b[1..])) || IsSubsequence(a, b[1..])
  }

  lemma {:induction false} SubsequenceReflexive<T>(s: seq<T>)
    ensures IsSubsequence(s, s)
  {
    if |s| > 0 {
      SubsequenceReflexive(s[1..]);
    }
  }

  lemma {:induction false} SubsequenceShorter<T>(a: seq<T>, b: seq<T>)
    requires IsSubsequence(a, b)
    ensures |a| <= |b|
    decreases |b|
  {
    if |a| > 0 {
      if a[0] == b[0] && IsSubsequence(a[1..], b[1..]) {
        SubsequenceShorter(a[1..], b[1..]);
      } else {
        SubsequenceShorter(a, b[1..]);
      }
    }
  }

  /** Selection never invents, duplicates or reorders rows. */
  lemma {:induction false} FilterIsSubsequence<T>(s: seq<T>, p: T -> bool)
    ensures IsSubsequence(Filter(s, p), s)
  {
    if |s| > 0 {
      FilterIsSubsequence(s[1..], p);
      var r := Filter(s, p);
      if p(s[0]) {
        assert r[0] == s[0] && r[1..] == Filter(s[1..], p);
      } else {
        assert r == Filter(s[1..], p);
      }
    }
  }

  lemma {:induction false} SubsequenceTransitive<T>(a: seq<T>, b: seq<T>, c: seq<T>)
    requires IsSubsequence(a, b) && IsSubsequence(b, c)
    ensures IsSubsequence(a, c)
    decreases |c|
  {
    if |a| > 0 {
      SubsequenceShorter(a, b);
      SubsequenceShorter(b, c);
      if b[0] == c[0] && IsSubsequence(b[1..], c[1..]) {
        if a[0] == b[0] && IsSubsequence(a[1..], b[1..]) {
          SubsequenceTransitive(a[1..], b[1..], c[1..]);
        } else {
          SubsequenceTransitive(a, b[1..], c[1..]);
        }
      } else {
        SubsequenceTransitive(a, b, c[1..]);
      }
    }
  }

  lemma {:induction false} FilterAppend<T>(a: seq<T>, b: seq<T>, p: T -> bool)
    ensures Filter(a + b, p) == Filter(a, p) + Filter(b, p)
  {
    if |a| > 0 {
      assert (a + b)[1..] == a[1..] + b;
      FilterAppend(a[1..], b, p);
    } else {
      assert a + b == b;
    }
  }

  /** A selection that every row passes is the identity. */
  lemma {:induction false} FilterKeepsAll<T>(s: seq<T>, p: T -> bool)
    requires forall i :: 0 <= i < |s| ==> p(s[i])
    ensures Filter(s, p) == s
  {
    if |s| > 0 {
      FilterKeepsAll(s[1..], p);
    }
  }

  /** A selection that no row passes is empty. */
  lemma {:induction false} FilterDropsAll<T>(s: seq<T>, p: T -> bool)
    requires forall i :: 0 <= i < |s| ==> !p(s[i])
    ensures Filter(s, p) == []
  {
    if |s| > 0 {
      FilterDropsAll(s[1..], p);
    }
  }

  /** Selections that agree on every row select the same rows. */
  lemma {:induction false} FilterExtensional<T>(s: seq<T>, p: T -> bool, q: T -> bool)
    requires forall i :: 0 <= i < |s| ==> p(s[i]) == q(s[i])
    ensures Filter(s, p) == Filter(s, q)
  {
    if |s| > 0 {
      FilterExtensional(s[1..], p, q);
    }
  }

  /** Two masks applied one after the other select what their conjunction selects. */
  lemma {:induction false} FilterFilter<T>(s: seq<T>, p: T -> bool, q: T -> bool)
    ensures Filter(Filter(s, p), q) == Filter(s, And(p, q))
  {
    if |s| > 0 {
      FilterFilter(s[1..], p, q);
      if p(s[0]) {
        assert Filter(s, p) == [s[0]] + Filter(s[1..], p);
        assert Filter(s, p)[1..] == Filter(s[1..], p);
      }
    }
  }

  /** Every row is counted by exactly one of `p` and its negation. */
  lemma {:induction false} CountPartition<T>(s: seq<T>, p: T -> bool)
    ensures Count(s, p) + Count(s, Not(p)) == |s|
  {
    if |s| > 0 {
      CountPartition(s[1..], p);
    }
  }

  /** No row satisfies `p` exactly when the count is 0. */
  lemma CountZero<T>(s: seq<T>, p: T -> bool)
    ensures Count(s, p) == 0 <==> forall i :: 0 <= i < |s| ==> !p(s[i])
  {
    if forall i :: 0 <= i < |s| ==> !p(s[i]) {
      FilterDropsAll(s, p);
    }
  }

  /** A count of the rows that satisfy `p` grows when `p` is weakened. */
  lemma {:induction false} CountMonotone<T>(s: seq<T>, p: T -> bool, q: T -> bool)
    requires forall i :: 0 <= i < |s| ==> p(s[i]) ==> q(s[i])
    ensures Count(s, p) <= Count(s, q)
  {
    if |s| > 0 {
      CountMonotone(s[1..], p, q);
    }
  }

  /** Some row satisfies `p` exactly when the count is positive. */
  lemma CountPositive<T>(s: seq<T>, p: T -> bool, i: int)
    requires 0 <= i < |s| && p(s[i])
    ensures Count(s, p) > 0
  {
    assert s[i] in Filter(s, p);
  }

  /** The sum of column `f` over all rows (pandas `.sum()`, 0 on no rows). */
  function Sum<T>(s: seq<T>, f: T -> real): real {
    if |s| == 0 then 0.0 else f(s[0]) + Sum(s[1..], f)
  }

  lemma {:induction false} SumAppend<T>(a: seq<T>, b: seq<T>, f: T -> real)
    ensures Sum(a + b, f) == Sum(a, f) + Sum(b, f)
  {
    if |a| > 0 {
      assert (a + b)[1..] == a[1..] + b;
      SumAppend(a[1..], b, f);
    } else {
      assert a + b == b;
    }
  }

  /** The sum of `f` over the rows that satisfy `p`, every other row contributing 0. */
  function MaskedSum<T>(s: seq<T>, p: T -> bool, f: T -> real): real {
    if |s| == 0 then 0.0 else (if p(s[0]) then f(s[0]) else 0.0) + MaskedSum(s[1..], p, f)
  }

  /** Summing the selected rows equals summing every row under the mask. */
  lemma {:induction false} SumFilterIsMaskedSum<T>(s: seq<T>, p: T -> bool, f: T -> real)
    ensures Sum(Filter(s, p), f) == MaskedSum(s, p, f)
  {
    if |s| > 0 {
      SumFilterIsMaskedSum(s[1..], p, f);
      if p(s[0]) {
        assert Filter(s, p) == [s[0]] + Filter(s[1..], p);
      }
    }
  }

  /** A sum splits into the sum over the selected rows and the sum over the rest. */
  lemma {:induction false} SumPartition<T>(s: seq<T>, p: T -> bool, f: T -> real)
    ensures Sum(s, f) == Sum(Filter(s, p), f) + Sum(Filter(s, Not(p)), f)
  {
    if |s| > 0 {
      SumPartition(s[1..], p, f);
      if p(s[0]) {
        assert Filter(s, p) == [s[0]] + Filter(s[1..], p);
        assert Filter(s, Not(p)) == Filter(s[1..], Not(p));
      } else {
        assert Filter(s, p) == Filter(s[1..], p);
        assert Filter(s, Not(p)) == [s[0]] + Filter(s[1..], Not(p));
      }
    }
  }

  /** A sum of per-row values that all lie in [lo, hi] lies in [n*lo, n*hi]. */
  lemma {:induction false} SumBounds<T>(s: seq<T>, f: T -> real, lo: real, hi: real)
    requires forall i :: 0 <= i < |s| ==> lo <= f(s[i]) <= hi
    ensures (|s| as real) * lo <= Sum(s, f) <= (|s| as real) * hi
  {
    if |s| > 0 {
      SumBounds(s[1..], f, lo, hi);
    }
  }

  lemma {:induction false} SumNonNegative<T>(s: seq<T>, f: T -> real)
    ensures (forall i :: 0 <= i < |s| ==> 0.0 <= f(s[i])) ==> 0.0 <= Sum(s, f)
  {
    if |s| > 0 {
      SumNonNegative(s[1..], f);
    }
  }

  /** A sum is monotone in the summed column. */
  lemma {:induction false} SumMonotone<T>(s: seq<T>, f: T -> real, g: T -> real)
    requires forall i :: 0 <= i < |s| ==> f(s[i]) <= g(s[i])
    ensures Sum(s, f) <= Sum(s, g)
  {
    if |s| > 0 {
      SumMonotone(s[1..], f, g);
    }
  }

  /** `100 * part / whole`, the dashboard's percentage of a count. */
  function Percent(part: nat, whole: nat): (r: real)
    requires 0 < whole
    requires part <= whole
    ensures 0.0 <= r <= 100.0
    ensures r * (whole as real) == 100.0 * (part as real)
    ensures r == 0.0 <==> part == 0
    ensures r == 100.0 <==> part == whole
  {
    PercentFacts(part, whole);
    100.0 * (part as real) / (whole as real)
  }

  /** A pandas `mean() * 100` over `whole` booleans of which `part` hold: NaN
      (`None`) when there are none, otherwise the percentage. */
  function Rate(part: nat, whole: nat): (r: Option<real>)
    requires part <= whole
    ensures r.None? <==> whole == 0
    ensures r.Some? ==> 0.0 <= r.value <= 100.0
    ensures r.Some? ==> r.value * (whole as real) == 100.0 * (part as real)
    ensures r.Some? ==> (r.value == 0.0 <==> part == 0)
  {
    if whole == 0 then None else Some(Percent(part, whole))
  }

  lemma PercentFacts(part: nat, whole: nat)
    requires 0 < whole && part <= whole
    ensures var r := 100.0 * (part as real) / (whole as real);
      && 0.0 <= r <= 100.0
      && r * (whole as real) == 100.0 * (part as real)
      && (r == 0.0 <==> part == 0)
      && (r == 100.0 <==> part == whole)
  {
    var w, p := whole as real, part as real;
    var r := 100.0 * p / w;
    assert r * w == 100.0 * p;
    assert 0.0 * w <= r * w <= 100.0 * w;
    ScaleOrder(0.0, r, w);
    ScaleOrder(r, 100.0, w);
    ScaleOrder(r, 0.0, w);
    ScaleOrder(100.0, r, w);
  }

  /** Multiplying by a positive factor keeps the order of two reals. */
  lemma ScaleOrder(a: real, b: real, w: real)
    requires 0.0 < w
    ensures a * w <= b * w <==> a <= b
  {
    if a <= b {
      assert b * w - a * w == (b - a) * w;
    } else {
      assert a * w - b * w == (a - b) * w;
    }
  }

  /** A mean lies between any bounds of the values averaged: if `a * n` is a
      total of `n` values in [lo, hi], then `a` lies in [lo, hi]. */
  lemma MeanBetween(a: real, n: real, total: real, lo: real, hi: real)
    requires 0.0 < n && a * n == total
    requires n * lo <= total <= n * hi
    ensures lo <= a <= hi
  {
    assert lo * n <= a * n <= hi * n;
    ScaleOrder(lo, a, n);
    ScaleOrder(a, hi, n);
  }
}
